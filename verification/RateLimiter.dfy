/**
 The per-client rate limiter: a map and an LRU list of token buckets
 (policy.go:158-255).
 */
module RateLimiter {
  import opened Wrappers
  import opened TokenBucket

  // ----- The table as a value: most recently seen client first -----

  datatype Entry = Entry(key: string, bucket: Bucket, seen: real)

  type Table = seq<Entry>

  predicate DistinctKeys(s: Table) {
    forall i, j | 0 <= i < j < |s| :: s[i].key != s[j].key
  }

  predicate WellFormed(l: Limits, s: Table) {
    DistinctKeys(s) && |s| <= l.maxKeys
  }

  function Expire(l: Limits, s: Table, now: real): (live: Table)
    ensures live <= s
  {
    if s != [] && now - s[|s| - 1].seen >= l.idle then Expire(l, s[..|s| - 1], now) else s
  }

  function Find(s: Table, key: string): (i: nat)
    ensures i <= |s|
    ensures i < |s| ==> s[i].key == key
    ensures forall j | 0 <= j < i :: s[j].key != key
  {
    if s == [] || s[0].key == key then 0 else 1 + Find(s[1..], key)
  }

  function Without(s: Table, i: nat): Table
    requires i < |s|
  {
    s[..i] + s[i + 1..]
  }

  /** True when serving `key` at `now` drops a client that has not idled out. */
  predicate Evicts(l: Limits, s: Table, key: string, now: real) {
    var live := Expire(l, s, now);
    Find(live, key) == |live| >= l.maxKeys
  }

  /** The other clients left in the table once `key` has been served. */
  function Others(l: Limits, live: Table, key: string): Table
    requires l.Valid()
  {
    var i := Find(live, key);
    if i < |live| then Without(live, i)
    else if |live| >= l.maxKeys then live[..|live| - 1]
    else live
  }

  function Served(l: Limits, s: Table, key: string, now: real): (Table, bool)
    requires l.Valid()
  {
    var live := Expire(l, s, now);
    var i := Find(live, key);
    var (bucket, ok) := Take(l, if i < |live| then live[i].bucket else Fresh(l), now);
    ([Entry(key, bucket, now)] + Others(l, live, key), ok)
  }

  // ----- The limiter as policy.go keeps it -----

  class RateClient {
    const key: string
    var bucket: Bucket
    var seen: real

    constructor (key: string, bucket: Bucket, seen: real)
      ensures this.key == key && this.bucket == bucket && this.seen == seen
    {
      this.key, this.bucket, this.seen := key, bucket, seen;
    }

    ghost function View(): Entry
      reads this
    {
      Entry(key, bucket, seen)
    }
  }

  ghost predicate Shows(recent: seq<RateClient>, s: Table)
    reads recent
  {
    |recent| == |s| && forall i | 0 <= i < |s| :: recent[i].View() == s[i]
  }

  lemma ShowsWithout(recent: seq<RateClient>, s: Table, i: nat)
    requires Shows(recent, s) && i < |s|
    ensures Shows(recent[..i] + recent[i + 1..], Without(s, i))
  {
  }

  /** The map and the list hold the same clients, one per key. */
  ghost predicate Agree(clients: map<string, RateClient>, recent: seq<RateClient>) {
    && (forall i, j | 0 <= i < j < |recent| :: recent[i].key != recent[j].key)
    && (forall i | 0 <= i < |recent| :: recent[i].key in clients && clients[recent[i].key] == recent[i])
    && (forall k | k in clients :: clients[k] in recent && clients[k].key == k)
  }

  lemma FindPosition(clients: map<string, RateClient>, recent: seq<RateClient>, s: Table, i: nat)
    requires Shows(recent, s) && i < |s|
    requires Agree(clients, recent)
    ensures Find(s, s[i].key) == i
  {
    var j := Find(s, s[i].key);
    assert recent[i].View() == s[i];
    if j < |s| { assert recent[j].View() == s[j]; }
  }

  lemma AgreeRemove(clients: map<string, RateClient>, recent: seq<RateClient>, i: nat)
    requires Agree(clients, recent) && i < |recent|
    ensures Agree(clients - {recent[i].key}, recent[..i] + recent[i + 1..])
  {
    var rest := recent[..i] + recent[i + 1..];
    assert forall j | 0 <= j < |rest| :: rest[j] == recent[if j < i then j else j + 1];
    forall k | k in clients && k != recent[i].key
      ensures clients[k] in rest
    {
      var j :| 0 <= j < |recent| && recent[j] == clients[k];
      assert rest[if j < i then j else j - 1] == recent[j];
    }
  }

  lemma AgreePush(clients: map<string, RateClient>, recent: seq<RateClient>, client: RateClient)
    requires Agree(clients, recent) && client.key !in clients
    ensures Agree(clients[client.key := client], [client] + recent)
  {
    var all := [client] + recent;
    forall k | k in clients
      ensures clients[k] in all
    {
      var j :| 0 <= j < |recent| && recent[j] == clients[k];
      assert all[j + 1] == recent[j];
    }
    assert all[0] == client;
  }

  lemma AgreeMove(clients: map<string, RateClient>, recent: seq<RateClient>, i: nat)
    requires Agree(clients, recent) && i < |recent|
    ensures Agree(clients, [recent[i]] + (recent[..i] + recent[i + 1..]))
  {
    AgreeRemove(clients, recent, i);
    var rest := clients - {recent[i].key};
    AgreePush(rest, recent[..i] + recent[i + 1..], recent[i]);
    assert rest[recent[i].key := recent[i]] == clients;
  }

  class RateLimiter {
    const limits: Limits
    var global: Option<Bucket>
    var clients: map<string, RateClient>
    var recent: seq<RateClient>
    ghost var table: Table  // what the list holds

    constructor (limits: Limits, shared: bool)
      requires limits.Valid()
      ensures Valid() && this.limits == limits && table == []
      ensures global == if shared then Some(Fresh(limits)) else None
    {
      this.limits := limits;
      global := if shared then Some(Fresh(limits)) else None;
      clients, recent, table := map[], [], [];
    }

    ghost predicate Valid()
      reads this, recent
    {
      && limits.Valid() && |recent| <= limits.maxKeys
      && Agree(clients, recent)
      && Shows(recent, table)
    }

    method Allow(key: string, now: real) returns (ok: bool)
      requires Valid()
      modifies this, recent
      ensures Valid()
      ensures old(global).None? ==>
                global.None? && (table, ok) == Served(limits, old(table), key, now)
      ensures old(global).Some? ==>
                var (bucket, admitted) := Take(limits, old(global).value, now);
                table == old(table) && global == Some(bucket) && ok == admitted
    {
      if global.Some? {
        var after;
        after, ok := AllowN(global.value, now);
        global := Some(after);
      } else {
        ok := AllowClient(key, now);
      }
    }

    method AllowClient(key: string, now: real) returns (ok: bool)
      requires Valid()
      modifies this`clients, this`recent, this`table, recent
      ensures Valid()
      ensures (table, ok) == Served(limits, old(table), key, now)
    {
      ExpireIdle(now);
      var client := Lookup(key, now);
      ok := Admit(client, now);
    }

    method Admit(client: RateClient, now: real) returns (ok: bool)
      requires Valid() && recent != [] && recent[0] == client
      modifies client, this`table
      ensures Valid()
      ensures var (bucket, admitted) := Take(limits, old(client.bucket), now);
              ok == admitted && table == [Entry(client.key, bucket, now)] + old(table)[1..]
    {
      client.seen := now;
      var after;
      after, ok := AllowN(client.bucket, now);
      client.bucket := after;
      table := [client.View()] + table[1..];
    }

    /** Drops clients from the back of the list until one is still live. */
    method ExpireIdle(now: real)
      requires Valid()
      modifies this`clients, this`recent, this`table
      ensures Valid() && recent <= old(recent)
      ensures table == Expire(limits, old(table), now)
    {
      while |recent| > 0 && now - recent[|recent| - 1].seen >= limits.idle
        invariant Valid() && recent <= old(recent)
        invariant Expire(limits, table, now) == Expire(limits, old(table), now)
        decreases |recent|
      {
        assert recent[|recent| - 1].View() == table[|recent| - 1];
        RemoveOldest();
      }
    }

    method RemoveOldest()
      requires Valid() && recent != []
      modifies this`clients, this`recent, this`table
      ensures Valid() && recent == old(recent)[..|old(recent)| - 1]
      ensures table == old(table)[..|old(table)| - 1]
      ensures clients.Keys < old(clients).Keys
    {
      ghost var was := table;
      Remove(|recent| - 1);
      assert Without(was, |was| - 1) == was[..|was| - 1];
    }

    /** Brings the client to the front of the list, adding it if it is new. */
    method Lookup(key: string, now: real) returns (client: RateClient)
      requires Valid()
      modifies this`clients, this`recent, this`table
      ensures Valid() && recent != [] && recent[0] == client && client.key == key
      ensures client in old(recent) || fresh(client)
      ensures var live := old(table);
              var i := Find(live, key);
              client.bucket == (if i < |live| then live[i].bucket else Fresh(limits))
              && table[1..] == Others(limits, live, key)
    {
      if key in clients {
        client := clients[key];
        MoveToFront(client);
      } else {
        if |recent| >= limits.maxKeys {
          RemoveOldest();
        }
        client := new RateClient(key, Fresh(limits), now);
        PushFront(client);
      }
    }

    /** Drops one client from the list and from the map. */
    method Remove(i: nat)
      requires Valid() && i < |recent|
      modifies this`clients, this`recent, this`table
      ensures Valid() && recent == old(recent)[..i] + old(recent)[i + 1..]
      ensures table == Without(old(table), i)
      ensures clients == old(clients) - {old(recent)[i].key}
    {
      AgreeRemove(clients, recent, i);
      ShowsWithout(recent, table, i);
      clients := clients - {recent[i].key};
      recent, table := recent[..i] + recent[i + 1..], Without(table, i);
    }

    method PushFront(client: RateClient)
      requires Valid() && client.key !in clients && |recent| < limits.maxKeys
      modifies this`clients, this`recent, this`table
      ensures Valid() && recent == [client] + old(recent)
      ensures table == [client.View()] + old(table)
    {
      AgreePush(clients, recent, client);
      recent, table := [client] + recent, [client.View()] + table;
      clients := clients[client.key := client];
    }

    method MoveToFront(client: RateClient)
      requires Valid() && client in recent
      modifies this`recent, this`table
      ensures Valid() && recent != [] && recent[0] == client && client in old(recent)
      ensures var i := Find(old(table), client.key);
              i < |old(table)| && table == [old(table)[i]] + Without(old(table), i)
    {
      hide Agree, Find;
      var i := Position(client);
      assert recent[i].View() == table[i];
      FindPosition(clients, recent, table, i);
      AgreeMove(clients, recent, i);
      ShowsWithout(recent, table, i);
      table := [table[i]] + Without(table, i);
      recent := [client] + (recent[..i] + recent[i + 1..]);
    }

    method AllowN(bucket: Bucket, now: real) returns (after: Bucket, ok: bool)
      requires limits.Valid()
      ensures (after, ok) == Take(limits, bucket, now)
    {
      var tokens := Level(limits, bucket, now) - 1.0;
      ok := tokens >= 0.0;
      after := if ok then Bucket(tokens, now) else bucket;
    }

    /** Where a client sits in the list; the source keeps a pointer to its element. */
    method Position(client: RateClient) returns (i: nat)
      requires client in recent
      ensures i < |recent| && recent[i] == client
    {
      i := 0;
      while recent[i] != client
        invariant i < |recent| && client in recent[i..]
        decreases |recent| - i
      {
        i := i + 1;
      }
    }
  }
}
