/** keyedMutex (internal/game/session.go): one mutex per key, its table entry gone once nobody
    holds it. The atomic steps are the two sections under `k.mu` and the acquire and release of `entry.mu`. */
module Locks {
  import opened Text

  /** Each process has its own table, so a lock is named by the process and the key. */
  datatype LockName = LockName(process: nat, key: string)

  /** Waiting: registered, before entry.mu.Lock returns. Holding: between that and entry.mu.Unlock.
      Leaving: unlocked, before the section that drops the registration. */
  datatype Phase = Waiting | Holding | Leaving

  datatype Client = Client(lock: LockName, entry: nat, phase: Phase)

  datatype Entry = Entry(holders: int, owner: Option<nat>)

  /** `table` is what the maps hold, `entries` is the heap the pointers lead into. */
  datatype LockState = LockState(table: map<LockName, nat>, entries: map<nat, Entry>, next: nat,
                                 clients: map<nat, Client>)

  const FREE: LockState := LockState(map[], map[], 0, map[])

  // ----- the steps -----

  /** First k.mu section: find or create the entry and count in. */
  function Register(l: LockState, r: nat, name: LockName): LockState {
    if name in l.table && l.table[name] in l.entries then
      var e := l.table[name];
      l.(entries := l.entries[e := l.entries[e].(holders := l.entries[e].holders + 1)],
         clients := l.clients[r := Client(name, e, Waiting)])
    else
      l.(table := l.table[name := l.next], entries := l.entries[l.next := Entry(1, None)], next := l.next + 1,
         clients := l.clients[r := Client(name, l.next, Waiting)])
  }

  predicate CanAcquire(l: LockState, r: nat) {
    && r in l.clients && l.clients[r].phase == Waiting
    && l.clients[r].entry in l.entries && l.entries[l.clients[r].entry].owner.None?
  }

  function Acquire(l: LockState, r: nat): LockState
    requires CanAcquire(l, r)
  {
    var e := l.clients[r].entry;
    l.(entries := l.entries[e := l.entries[e].(owner := Some(r))],
       clients := l.clients[r := l.clients[r].(phase := Holding)])
  }

  predicate CanRelease(l: LockState, r: nat) {
    r in l.clients && l.clients[r].phase == Holding && l.clients[r].entry in l.entries
  }

  function Release(l: LockState, r: nat): LockState
    requires CanRelease(l, r)
  {
    var e := l.clients[r].entry;
    l.(entries := l.entries[e := l.entries[e].(owner := None)],
       clients := l.clients[r := l.clients[r].(phase := Leaving)])
  }

  predicate CanLeave(l: LockState, r: nat) {
    r in l.clients && l.clients[r].phase == Leaving && l.clients[r].entry in l.entries
  }

  /** Second k.mu section: count out, and delete whatever the key maps to when the count reaches zero. */
  function Leave(l: LockState, r: nat): LockState
    requires CanLeave(l, r)
  {
    var c := l.clients[r];
    var left := l.entries[c.entry].holders - 1;
    l.(entries := l.entries[c.entry := l.entries[c.entry].(holders := left)],
       table := if left == 0 then l.table - {c.lock} else l.table,
       clients := l.clients - {r})
  }

  // ----- the invariant -----

  function Registered(l: LockState, name: LockName): set<nat> {
    set r | r in l.clients && l.clients[r].lock == name
  }

  /** Everybody registered on a lock points at the entry the table holds, and only one of them is inside. */
  ghost predicate ClientOk(l: LockState, r: nat)
    requires r in l.clients
  {
    var c := l.clients[r];
    && c.lock in l.table && l.table[c.lock] == c.entry && c.entry in l.entries
    && (c.phase == Holding <==> l.entries[c.entry].owner == Some(r))
  }

  ghost predicate EntryOk(l: LockState, name: LockName)
    requires name in l.table
  {
    var e := l.table[name];
    && e in l.entries && e < l.next
    && Registered(l, name) != {} && l.entries[e].holders == |Registered(l, name)|
    && (l.entries[e].owner.Some? ==>
          l.entries[e].owner.value in l.clients && l.clients[l.entries[e].owner.value].lock == name
          && l.clients[l.entries[e].owner.value].phase == Holding)
  }

  ghost predicate Sound(l: LockState) {
    && (forall r | r in l.clients :: ClientOk(l, r))
    && (forall name | name in l.table :: EntryOk(l, name))
    && (forall a, b | a in l.table && b in l.table && l.table[a] == l.table[b] :: a == b)
    && (forall e | e in l.entries :: e < l.next)
  }

  // ----- every step keeps it -----

  lemma RegisteredAfterRegister(l: LockState, r: nat, name: LockName, n: LockName)
    requires Sound(l) && r !in l.clients
    ensures Registered(Register(l, r, name), n) == if n == name then Registered(l, n) + {r} else Registered(l, n)
    ensures name !in l.table ==> Registered(l, name) == {}
  {
    if name !in l.table {
      forall x | x in l.clients ensures l.clients[x].lock != name { assert ClientOk(l, x); }
    }
  }

  lemma RegisterKeepsEntry(l: LockState, r: nat, name: LockName, n: LockName)
    requires Sound(l) && r !in l.clients && n in Register(l, r, name).table
    ensures EntryOk(Register(l, r, name), n)
  {
    var m := Register(l, r, name);
    RegisteredAfterRegister(l, r, name, n);
    if n in l.table { assert EntryOk(l, n); }
    if name in l.table { assert EntryOk(l, name); }
  }

  lemma RegisterKeepsDistinct(l: LockState, r: nat, name: LockName, a: LockName, b: LockName)
    requires Sound(l) && r !in l.clients
    requires a in Register(l, r, name).table && b in Register(l, r, name).table
    requires Register(l, r, name).table[a] == Register(l, r, name).table[b]
    ensures a == b
  {
    if a in l.table { assert EntryOk(l, a); }
    if b in l.table { assert EntryOk(l, b); }
  }

  lemma RegisterKeepsClient(l: LockState, r: nat, name: LockName, x: nat)
    requires Sound(l) && r !in l.clients && x in Register(l, r, name).clients
    ensures ClientOk(Register(l, r, name), x)
  {
    if name in l.table { assert EntryOk(l, name); }
    if x != r {
      assert ClientOk(l, x);
      assert EntryOk(l, l.clients[x].lock);
    }
  }

  lemma RegisterKeepsSound(l: LockState, r: nat, name: LockName)
    requires Sound(l) && r !in l.clients
    ensures Sound(Register(l, r, name))
  {
    var m := Register(l, r, name);
    forall x | x in m.clients ensures ClientOk(m, x) { RegisterKeepsClient(l, r, name, x); }
    forall n | n in m.table ensures EntryOk(m, n) { RegisterKeepsEntry(l, r, name, n); }
    forall a, b | a in m.table && b in m.table && m.table[a] == m.table[b] ensures a == b {
      RegisterKeepsDistinct(l, r, name, a, b);
    }
  }

  lemma AcquireKeepsSound(l: LockState, r: nat)
    requires Sound(l) && CanAcquire(l, r)
    ensures Sound(Acquire(l, r))
  {
    var m := Acquire(l, r);
    forall n: LockName ensures Registered(m, n) == Registered(l, n) {}
    forall x | x in m.clients ensures ClientOk(m, x) { assert ClientOk(l, x) && ClientOk(l, r); }
    forall n | n in m.table ensures EntryOk(m, n) { assert EntryOk(l, n) && ClientOk(l, r); }
  }

  lemma ReleaseKeepsSound(l: LockState, r: nat)
    requires Sound(l) && CanRelease(l, r)
    ensures Sound(Release(l, r))
  {
    var m := Release(l, r);
    forall n: LockName ensures Registered(m, n) == Registered(l, n) {}
    forall x | x in m.clients ensures ClientOk(m, x) { assert ClientOk(l, x) && ClientOk(l, r); }
    forall n | n in m.table ensures EntryOk(m, n) { assert EntryOk(l, n) && ClientOk(l, r); }
  }

  lemma RegisteredAfterLeave(l: LockState, r: nat, n: LockName)
    requires Sound(l) && CanLeave(l, r)
    ensures Registered(Leave(l, r), n) == Registered(l, n) - {r}
    ensures n == l.clients[r].lock ==> |Registered(Leave(l, r), n)| == |Registered(l, n)| - 1
  {
    assert Registered(Leave(l, r), n) == Registered(l, n) - {r};
  }

  lemma LeaveKeepsEntry(l: LockState, r: nat, n: LockName)
    requires Sound(l) && CanLeave(l, r) && n in Leave(l, r).table
    ensures EntryOk(Leave(l, r), n)
  {
    RegisteredAfterLeave(l, r, n);
    assert ClientOk(l, r) && EntryOk(l, n);
    if n != l.clients[r].lock {
      assert l.table[n] != l.clients[r].entry;
      assert r !in Registered(l, n);
    }
  }

  lemma LeaveKeepsClient(l: LockState, r: nat, x: nat)
    requires Sound(l) && CanLeave(l, r) && x in l.clients && x != r
    ensures ClientOk(Leave(l, r), x)
  {
    var name := l.clients[r].lock;
    RegisteredAfterLeave(l, r, name);
    assert ClientOk(l, r) && ClientOk(l, x) && EntryOk(l, name);
    if l.clients[x].lock == name {
      assert x in Registered(Leave(l, r), name);
      assert |Registered(Leave(l, r), name)| > 0;
    }
  }

  lemma LeaveKeepsSound(l: LockState, r: nat)
    requires Sound(l) && CanLeave(l, r)
    ensures Sound(Leave(l, r))
  {
    var m := Leave(l, r);
    forall x | x in m.clients ensures ClientOk(m, x) { LeaveKeepsClient(l, r, x); }
    forall n | n in m.table ensures EntryOk(m, n) { LeaveKeepsEntry(l, r, n); }
  }

  // ----- what it gives -----

  /** At most one request is between the acquire and the release of a lock. */
  lemma MutualExclusion(l: LockState, a: nat, b: nat)
    requires Sound(l) && a in l.clients && b in l.clients && l.clients[a].lock == l.clients[b].lock
    requires l.clients[a].phase == Holding && l.clients[b].phase == Holding
    ensures a == b
  {
    assert ClientOk(l, a) && ClientOk(l, b);
  }

  /** All who are registered on a key share one entry, and its count is their number. */
  lemma OneEntryPerKey(l: LockState, a: nat, b: nat)
    requires Sound(l) && a in l.clients && b in l.clients && l.clients[a].lock == l.clients[b].lock
    ensures l.clients[a].entry == l.clients[b].entry && l.clients[a].entry in l.entries
    ensures l.entries[l.clients[a].entry].holders == |Registered(l, l.clients[a].lock)|
  {
    assert ClientOk(l, a) && ClientOk(l, b) && EntryOk(l, l.clients[a].lock);
  }

  /** The table holds a key exactly while somebody is registered on it; nothing is left behind. */
  lemma TableIsExact(l: LockState, name: LockName)
    requires Sound(l)
    ensures name in l.table <==> Registered(l, name) != {}
    ensures l.clients == map[] ==> l.table == map[]
  {
    if Registered(l, name) != {} {
      var r :| r in Registered(l, name);
      assert ClientOk(l, r);
    }
    if l.clients == map[] {
      assert forall n: LockName :: Registered(l, n) == {};
      assert forall n | n in l.table :: EntryOk(l, n);
    }
  }

  /** Somebody can always move: a waiting request is kept out only by one that is inside and can leave. */
  lemma NoDeadlock(l: LockState, r: nat)
    requires Sound(l) && r in l.clients
    ensures CanAcquire(l, r) || CanRelease(l, r) || CanLeave(l, r)
            || (exists x :: x in l.clients && l.clients[x].lock == l.clients[r].lock && CanRelease(l, x))
  {
    assert ClientOk(l, r);
    var name := l.clients[r].lock;
    assert EntryOk(l, name);
    if l.clients[r].phase == Waiting && l.entries[l.clients[r].entry].owner.Some? {
      var other := l.entries[l.clients[r].entry].owner.value;
      assert ClientOk(l, other);
      assert CanRelease(l, other);
    }
  }

  // ----- the table as the object that holds it -----

  class KeyedLock {
    var holders: int

    constructor ()
      ensures holders == 0
    {
      holders := 0;
    }
  }

  /** One process's table. `tickets` lists, for each key, the entry that everybody between the two sections holds:
      what the unlock closures remember. */
  class KeyedMutex {
    var locks: map<string, KeyedLock>
    ghost var tickets: map<string, seq<KeyedLock>>

    ghost predicate Valid()
      reads this, locks.Values
    {
      && locks.Keys == tickets.Keys
      && (forall k | k in locks :: locks[k].holders == |tickets[k]| > 0)
      && (forall k, i | k in tickets && 0 <= i < |tickets[k]| :: tickets[k][i] == locks[k])
      && (forall a, b | a in locks && b in locks && locks[a] == locks[b] :: a == b)
    }

    ghost function Tickets(key: string): seq<KeyedLock>
      reads this
    {
      if key in tickets then tickets[key] else []
    }

    constructor ()
      ensures Valid() && locks == map[] && tickets == map[]
    {
      locks, tickets := map[], map[];
    }

    /** lock, up to the release of k.mu: everybody who enters on a key gets the same entry. */
    method Enter(key: string) returns (entry: KeyedLock)
      requires Valid()
      modifies this, locks.Values
      ensures Valid() && key in locks && locks[key] == entry
      ensures tickets == old(tickets)[key := old(Tickets(key)) + [entry]]
      ensures if key in old(locks) then locks == old(locks) else fresh(entry) && locks == old(locks)[key := entry]
    {
      if key in locks {
        entry := locks[key];
      } else {
        entry := new KeyedLock();
        locks := locks[key := entry];
      }
      entry.holders := entry.holders + 1;
      tickets := tickets[key := Tickets(key) + [entry]];
    }

    /** The unlock closure, from the second k.mu section on. It drops whatever the key maps to by then, which is
        still the entry it was given. */
    method Exit(key: string, entry: KeyedLock)
      requires Valid() && entry in Tickets(key)
      modifies this, locks.Values
      ensures Valid() && old(key in locks && locks[key] == entry)
      ensures |Tickets(key)| == |old(Tickets(key))| - 1
      ensures tickets - {key} == old(tickets) - {key}
      ensures locks == if Tickets(key) == [] then old(locks) - {key} else old(locks)
    {
      entry.holders := entry.holders - 1;
      tickets := if |tickets[key]| == 1 then tickets - {key} else tickets[key := tickets[key][1..]];
      if entry.holders == 0 {
        locks := locks - {key};
      }
    }
  }
}
