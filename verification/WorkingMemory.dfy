/** The agents' working memory: a store with a token budget that evicts its oldest entries. */
module WorkingMemory {
  import opened Common

  /** About four characters per token, at least one. */
  function ApproxTokens(text: string): (n: nat)
    ensures n >= 1
    ensures if |text| < 4 then n == 1 else 4 * n <= |text| < 4 * n + 4
  {
    if |text| / 4 > 1 then |text| / 4 else 1
  }

  datatype Entry<K> = Entry(key: K, value: string)

  function Tokens<K>(es: seq<Entry<K>>): nat {
    if es == [] then 0 else ApproxTokens(es[0].value) + Tokens(es[1..])
  }

  /** The position of the first entry with this key, or the length. */
  function Position<K(==)>(es: seq<Entry<K>>, key: K): (r: nat)
    ensures r <= |es| && (r < |es| ==> es[r].key == key)
    ensures forall j :: 0 <= j < r ==> es[j].key != key
  {
    if es == [] || es[0].key == key then 0 else 1 + Position(es[1..], key)
  }

  function RemoveAt<T>(s: seq<T>, i: nat): seq<T>
    requires i < |s|
  {
    s[..i] + s[i + 1..]
  }

  function Drop<K(==)>(es: seq<Entry<K>>, key: K): seq<Entry<K>> {
    var i := Position(es, key);
    if i < |es| then RemoveAt(es, i) else es
  }

  /** Entries, oldest first, each key once. */
  ghost predicate Unique<K>(es: seq<Entry<K>>) {
    forall i, j :: 0 <= i < j < |es| ==> es[i].key != es[j].key
  }

  /** How many of the oldest entries must go before the rest fits the budget. */
  function Evictions<K>(es: seq<Entry<K>>, maxTokens: int): (n: nat)
    ensures n <= |es|
  {
    if es == [] || Tokens(es) <= maxTokens then 0 else 1 + Evictions(es[1..], maxTokens)
  }

  /** What is kept is the longest suffix that fits: every longer one is over budget. */
  lemma {:induction false} KeepsLongestSuffix<K>(es: seq<Entry<K>>, maxTokens: int)
    ensures var n := Evictions(es, maxTokens);
            && (n < |es| ==> Tokens(es[n..]) <= maxTokens)
            && forall j :: 0 <= j < n ==> Tokens(es[j..]) > maxTokens
  {
    assert es[0..] == es;
    if es != [] && Tokens(es) > maxTokens {
      KeepsLongestSuffix(es[1..], maxTokens);
      var n := Evictions(es, maxTokens);
      assert es[1..][n - 1..] == es[n..];
      forall j | 0 < j < n
        ensures Tokens(es[j..]) > maxTokens
      {
        assert es[1..][j - 1..] == es[j..];
      }
    }
  }

  /** The entry made the most recent one, before pruning. */
  function Refreshed<K(==)>(es: seq<Entry<K>>, key: K, value: string): seq<Entry<K>> {
    Drop(es, key) + [Entry(key, value)]
  }

  function AfterPut<K(==)>(es: seq<Entry<K>>, key: K, value: string, maxTokens: int): seq<Entry<K>> {
    var r := Refreshed(es, key, value);
    r[Evictions(r, maxTokens)..]
  }

  lemma DropUnique<K>(es: seq<Entry<K>>, key: K)
    requires Unique(es)
    ensures Unique(Drop(es, key))
  {
  }

  lemma {:induction false} TokensRemoveAt<K>(es: seq<Entry<K>>, i: nat)
    requires i < |es|
    ensures Tokens(es) == ApproxTokens(es[i].value) + Tokens(RemoveAt(es, i))
  {
    if i == 0 {
      assert RemoveAt(es, 0) == es[1..];
    } else {
      TokensRemoveAt(es[1..], i - 1);
      var r := RemoveAt(es, i);
      assert r[0] == es[0] && r[1..] == RemoveAt(es[1..], i - 1);
    }
  }

  /** The list and the dictionary together hold exactly these entries. */
  ghost predicate Represents<K>(order: seq<K>, store: map<K, string>, es: seq<Entry<K>>) {
    && Unique(es)
    && |order| == |es|
    && (forall i :: 0 <= i < |es| ==> order[i] == es[i].key)
    && (forall i :: 0 <= i < |es| ==> es[i].key in store && store[es[i].key] == es[i].value)
    && (forall k :: k in store ==> Position(es, k) < |es|)
  }

  lemma UniqueRemoveAt<K>(es: seq<Entry<K>>, i: nat)
    requires Unique(es) && i < |es|
    ensures Position(es, es[i].key) == i && Drop(es, es[i].key) == RemoveAt(es, i)
    ensures Unique(RemoveAt(es, i))
    ensures forall j :: 0 <= j < |RemoveAt(es, i)| ==> RemoveAt(es, i)[j].key != es[i].key
  {
  }

  /** The removed position is gone from both lists, everything else only shifts. */
  lemma RemoveAtKeeps<T>(s: seq<T>, i: nat, j: nat)
    requires i < |s| && j < |s| && j != i
    ensures var r := RemoveAt(s, i); |r| == |s| - 1 && r[if j < i then j else j - 1] == s[j]
  {
  }

  lemma RemovedLength<T>(s: seq<T>, i: nat)
    requires i < |s|
    ensures |RemoveAt(s, i)| == |s| - 1
  {
  }

  /** Which entry moves to position j. */
  lemma RemovedEntry<T>(s: seq<T>, i: nat, j: nat)
    requires i < |s| && j < |RemoveAt(s, i)|
    ensures |RemoveAt(s, i)| == |s| - 1 && RemoveAt(s, i)[j] == s[if j < i then j else j + 1]
  {
  }

  lemma RepresentsRemoveAt<K>(order: seq<K>, store: map<K, string>, es: seq<Entry<K>>, i: nat)
    requires Represents(order, store, es) && i < |order|
    ensures order[i] in store && store[order[i]] == es[i].value && Position(es, order[i]) == i
    ensures Represents(RemoveAt(order, i), store - {order[i]}, RemoveAt(es, i))
  {
    UniqueRemoveAt(es, i);
    var rest, gone := RemoveAt(es, i), es[i].key;
    hide RemoveAt, Unique, Position, Drop;
    forall j | 0 <= j < |rest|
      ensures RemoveAt(order, i)[j] == rest[j].key && rest[j].key != gone
      ensures rest[j].key in store && store[rest[j].key] == rest[j].value
    {
      RemovedEntry(es, i, j);
      RemovedEntry(order, i, j);
    }
    forall k | k in store && k != gone
      ensures Position(rest, k) < |rest|
    {
      RemoveAtKeeps(es, i, Position(es, k));
    }
    RemovedLength(es, i);
    RemovedLength(order, i);
  }

  lemma RepresentsAppend<K>(order: seq<K>, store: map<K, string>, es: seq<Entry<K>>, key: K, value: string)
    requires Represents(order, store, es) && key !in store
    ensures Represents(order + [key], store[key := value], es + [Entry(key, value)])
  {
    var more := es + [Entry(key, value)];
    forall k | k in store[key := value]
      ensures Position(more, k) < |more|
    {
      assert more[if k == key then |es| else Position(es, k)].key == k;
    }
  }

  lemma RepresentsKeys<K>(order: seq<K>, store: map<K, string>, es: seq<Entry<K>>, key: K)
    requires Represents(order, store, es)
    ensures |order| == |es|
    ensures key in store ==> Position(es, key) < |order| && order[Position(es, key)] == key
    ensures key !in store ==> Position(es, key) == |es|
    ensures store == map[] ==> es == []
  {
    if es != [] {
      assert es[0].key in store;
    }
  }

  class WorkingMemoryStore<K(==)> {
    const maxTokens: int
    var store: map<K, string>
    var order: seq<K>

    /** The entries the two fields stand for, oldest first. */
    ghost var Entries: seq<Entry<K>>

    ghost predicate Valid()
      reads this
    {
      Represents(order, store, Entries)
    }

    constructor (maxTokens: int)
      ensures Valid() && this.maxTokens == maxTokens && Entries == []
    {
      this.maxTokens, store, order, Entries := maxTokens, map[], [], [];
    }

    /** Sums over the stored values, in whatever order the dictionary yields them. */
    method TokenCount() returns (total: nat)
      requires Valid()
      ensures total == Tokens(Entries)
    {
      hide Represents, Tokens, Position;
      total := 0;
      var unread := store;
      ghost var keys, rest := order, Entries;
      while unread != map[]
        invariant Represents(keys, unread, rest)
        invariant total + Tokens(rest) == Tokens(Entries)
        decreases unread.Keys
      {
        var key :| key in unread;
        RepresentsKeys(keys, unread, rest, key);
        ghost var i := Position(rest, key);
        RepresentsRemoveAt(keys, unread, rest, i);
        TokensRemoveAt(rest, i);
        total := total + ApproxTokens(unread[key]);
        unread := unread - {key};
        keys, rest := RemoveAt(keys, i), RemoveAt(rest, i);
      }
      NoTokens(keys, unread, rest);
    }

    method Put(key: K, value: string)
      requires Valid()
      modifies this
      ensures Valid() && Entries == AfterPut(old(Entries), key, value, maxTokens)
    {
      hide Represents, Tokens, Position, Evictions;
      RepresentsKeys(order, store, Entries, key);
      if key in store {
        RemoveKey(key);
      }
      RepresentsAppend(order, store, Entries, key, value);
      store := store[key := value];
      order := order + [key];
      Entries := Entries + [Entry(key, value)];
      Prune();
    }

    method Delete(key: K)
      requires Valid()
      modifies this
      ensures Valid() && Entries == Drop(old(Entries), key)
    {
      hide Represents, Position;
      RepresentsKeys(order, store, Entries, key);
      if key in store {
        RemoveKey(key);
      }
    }

    /** Deletes the key from the store and removes its first occurrence from the list. */
    method RemoveKey(key: K)
      requires Valid() && key in store
      modifies this
      ensures Valid() && Entries == Drop(old(Entries), key) && key !in store
    {
      RepresentsKeys(order, store, Entries, key);
      ghost var at := Position(Entries, key);
      var i := 0;
      while order[i] != key
        invariant 0 <= i <= at
        decreases at - i
      {
        i := i + 1;
      }
      RepresentsRemoveAt(order, store, Entries, i);
      hide Represents, Position;
      store := store - {key};
      order := RemoveAt(order, i);
      Entries := RemoveAt(Entries, i);
    }

    /** Evicts the oldest entries while the budget is exceeded. */
    method Prune()
      requires Valid()
      modifies this
      ensures Valid() && Entries == old(Entries)[Evictions(old(Entries), maxTokens)..]
    {
      hide Represents, Tokens, Position;
      ghost var n := 0;
      while true
        invariant Valid()
        invariant n <= |old(Entries)| && Entries == old(Entries)[n..]
        invariant Evictions(old(Entries), maxTokens) == n + Evictions(Entries, maxTokens)
        decreases |Entries|
      {
        var total := TokenCount();
        SameLength(order, store, Entries);
        if !(total > maxTokens && order != []) {
          break;
        }
        RepresentsRemoveAt(order, store, Entries, 0);
        assert RemoveAt(order, 0) == order[1..] && RemoveAt(Entries, 0) == Entries[1..];
        var evicted := order[0];
        order := order[1..];
        store := store - {evicted};
        Entries := Entries[1..];
        n := n + 1;
      }
    }
  }

  lemma SameLength<K>(order: seq<K>, store: map<K, string>, es: seq<Entry<K>>)
    requires Represents(order, store, es)
    ensures |order| == |es|
  {
  }

  lemma NoTokens<K>(order: seq<K>, store: map<K, string>, es: seq<Entry<K>>)
    requires Represents(order, store, es)
    ensures store == map[] ==> Tokens(es) == 0
  {
    if es != [] {
      assert es[0].key in store;
    }
  }

  // ---- Any run of puts and deletes ----

  datatype Op<K> = Put(key: K, value: string) | Delete(key: K)

  function RunOps<K(==)>(ops: seq<Op<K>>, maxTokens: int): seq<Entry<K>> {
    if ops == [] then []
    else match Last(ops)
      case Put(k, v) => AfterPut(RunOps(Front(ops), maxTokens), k, v, maxTokens)
      case Delete(k) => Drop(RunOps(Front(ops), maxTokens), k)
  }

  /** The same run without a budget: the keys put and not deleted since, least recently
      put first, with their last values. Nothing is ever evicted. */
  function Unbudgeted<K(==)>(ops: seq<Op<K>>): seq<Entry<K>> {
    if ops == [] then []
    else match Last(ops)
      case Put(k, v) => Refreshed(Unbudgeted(Front(ops)), k, v)
      case Delete(k) => Drop(Unbudgeted(Front(ops)), k)
  }

  lemma {:induction false} UnbudgetedUnique<K>(ops: seq<Op<K>>)
    ensures Unique(Unbudgeted(ops))
  {
    if ops != [] {
      UnbudgetedUnique(Front(ops));
      DropUnique(Unbudgeted(Front(ops)), Last(ops).key);
    }
  }

  /** Operation n put this entry, and no later one concerns its key. */
  ghost predicate LastPut<K>(ops: seq<Op<K>>, n: nat, e: Entry<K>) {
    n < |ops| && ops[n] == Put(e.key, e.value) && forall m :: n < m < |ops| ==> ops[m].key != e.key
  }

  lemma DropKeeps<K>(es: seq<Entry<K>>, key: K, e: Entry<K>)
    requires Unique(es)
    ensures e in Drop(es, key) <==> e in es && e.key != key
  {
    var i := Position(es, key);
    if i < |es| {
      OthersDiffer(es, i);
      var rest := RemoveAt(es, i);
      hide Unique, Position, RemoveAt;
      if e in rest {
        var j :| 0 <= j < |rest| && rest[j] == e;
        RemovedEntry(es, i, j);
      }
      if e in es && e.key != key {
        var j :| 0 <= j < |es| && es[j] == e;
        RemoveAtKeeps(es, i, j);
      }
    }
  }

  lemma LastPutBefore<K>(ops: seq<Op<K>>, n: nat, e: Entry<K>)
    requires ops != [] && e.key != Last(ops).key
    ensures LastPut(ops, n, e) <==> LastPut(Front(ops), n, e)
  {
    assert n < |ops| - 1 ==> Front(ops)[n] == ops[n];
  }

  lemma LastPutNow<K>(ops: seq<Op<K>>, n: nat, e: Entry<K>)
    requires ops != [] && e.key == Last(ops).key
    ensures LastPut(ops, n, e) <==> n == |ops| - 1 && Last(ops) == Put(e.key, e.value)
  {
    if n < |ops| - 1 {
      assert ops[|ops| - 1].key == e.key;
    }
  }

  /** Without a budget the memory holds exactly the entries whose key was last put, not deleted, with that value. */
  lemma {:induction false} UnbudgetedAreLastPuts<K>(ops: seq<Op<K>>, e: Entry<K>)
    ensures e in Unbudgeted(ops) <==> exists n :: LastPut(ops, n, e)
  {
    if ops != [] {
      var es, key := Unbudgeted(Front(ops)), Last(ops).key;
      UnbudgetedAreLastPuts(Front(ops), e);
      UnbudgetedUnique(Front(ops));
      DropKeeps(es, key, e);
      forall n: nat
        ensures if e.key == key then LastPut(ops, n, e) <==> n == |ops| - 1 && Last(ops) == Put(e.key, e.value)
                else LastPut(ops, n, e) <==> LastPut(Front(ops), n, e)
      {
        if e.key == key {
          LastPutNow(ops, n, e);
        } else {
          LastPutBefore(ops, n, e);
        }
      }
      hide LastPut, Drop, Unique;
      if e.key == key && Last(ops) == Put(e.key, e.value) {
        assert LastPut(ops, |ops| - 1, e);
      }
    }
  }

  lemma DropOrder<K>(es: seq<Entry<K>>, key: K, i: nat, j: nat) returns (k: nat, l: nat)
    requires i < j < |Drop(es, key)| && Unique(es)
    ensures k < l < |es| && es[k] == Drop(es, key)[i] && es[l] == Drop(es, key)[j]
    ensures es[k].key != key && es[l].key != key
  {
    var at := Position(es, key);
    k, l := i, j;
    if at < |es| {
      OthersDiffer(es, at);
      hide Unique, Position, RemoveAt;
      RemovedEntry(es, at, i);
      RemovedEntry(es, at, j);
      k := if i < at then i else i + 1;
      l := if j < at then j else j + 1;
    }
  }

  /** Its entries are in the order in which they were last put. */
  lemma {:induction false} UnbudgetedInOrder<K>(ops: seq<Op<K>>, i: nat, j: nat, m: nat, n: nat)
    requires i < j < |Unbudgeted(ops)|
    requires LastPut(ops, m, Unbudgeted(ops)[i]) && LastPut(ops, n, Unbudgeted(ops)[j])
    ensures m < n
  {
    var es, key := Unbudgeted(Front(ops)), Last(ops).key;
    var kept := Drop(es, key);
    UnbudgetedUnique(Front(ops));
    UnbudgetedUnique(ops);
    hide Drop, Unique;
    if j < |kept| {
      var k, l := DropOrder(es, key, i, j);
      LastPutBefore(ops, m, es[k]);
      LastPutBefore(ops, n, es[l]);
      UnbudgetedInOrder(Front(ops), k, l, m, n);
    } else {
      LastPutNow(ops, n, Unbudgeted(ops)[j]);
      TwoLastPuts(ops, i, j, m, n);
    }
  }

  lemma TwoLastPuts<K>(ops: seq<Op<K>>, i: nat, j: nat, m: nat, n: nat)
    requires i < j < |Unbudgeted(ops)| && Unique(Unbudgeted(ops))
    requires LastPut(ops, m, Unbudgeted(ops)[i]) && LastPut(ops, n, Unbudgeted(ops)[j]) && n == |ops| - 1
    ensures m < n
  {
    assert Unbudgeted(ops)[i].key != Unbudgeted(ops)[j].key;
  }

  /** Removing a key from a suffix leaves a suffix. */
  lemma DropSuffix<K>(es: seq<Entry<K>>, n: nat, key: K) returns (m: nat)
    requires n <= |es| && Unique(es)
    ensures m <= |Drop(es, key)| && Drop(es[n..], key) == Drop(es, key)[m..]
  {
    var i := Position(es, key);
    if i < n {
      m := n - 1;
      OthersDiffer(es, i);
      hide Position, Unique;
      Absent(es[n..], key);
      RemoveAtBefore(es, n, i);
    } else {
      m := n;
      hide Position, Unique;
      PositionTail(es, n, key);
      if i < |es| {
        RemoveAtAfter(es, n, i);
      }
    }
  }

  lemma OthersDiffer<K>(es: seq<Entry<K>>, i: nat)
    requires Unique(es) && i < |es|
    ensures forall j :: 0 <= j < |es| && j != i ==> es[j].key != es[i].key
  {
  }

  lemma RemoveAtBefore<T>(s: seq<T>, n: nat, i: nat)
    requires i < n <= |s|
    ensures RemoveAt(s, i)[n - 1..] == s[n..]
  {
  }

  lemma RemoveAtAfter<T>(s: seq<T>, n: nat, i: nat)
    requires n <= i < |s|
    ensures RemoveAt(s[n..], i - n) == RemoveAt(s, i)[n..]
  {
  }

  lemma Absent<K>(es: seq<Entry<K>>, key: K)
    requires forall i :: 0 <= i < |es| ==> es[i].key != key
    ensures Position(es, key) == |es|
  {
  }

  lemma {:induction false} PositionTail<K>(es: seq<Entry<K>>, n: nat, key: K)
    requires n <= Position(es, key)
    ensures Position(es[n..], key) == Position(es, key) - n
  {
    if n > 0 {
      PositionTail(es[1..], n - 1, key);
      assert es[1..][n - 1..] == es[n..];
    } else {
      assert es[0..] == es;
    }
  }

  /** Over any run the memory is the unbudgeted one minus its n oldest entries: no older
      entry ever survives a newer one's eviction, and each survivor holds its last value. */
  lemma {:induction false} MemoryIsRecentSuffix<K>(ops: seq<Op<K>>, maxTokens: int) returns (n: nat)
    ensures n <= |Unbudgeted(ops)| && RunOps(ops, maxTokens) == Unbudgeted(ops)[n..]
    ensures Unique(RunOps(ops, maxTokens))
  {
    UnbudgetedUnique(ops);
    if ops == [] {
      n := 0;
    } else {
      var whole := Unbudgeted(Front(ops));
      n := MemoryIsRecentSuffix(Front(ops), maxTokens);
      UnbudgetedUnique(Front(ops));
      n := DropSuffix(whole, n, Last(ops).key);
      if Last(ops).Put? {
        n := PutSuffix(RunOps(Front(ops), maxTokens), whole, n, Last(ops).key, Last(ops).value, maxTokens);
      }
    }
  }

  lemma PutSuffix<K>(es: seq<Entry<K>>, whole: seq<Entry<K>>, m: nat, key: K, value: string, maxTokens: int)
      returns (n: nat)
    requires m <= |Drop(whole, key)| && Drop(es, key) == Drop(whole, key)[m..]
    ensures n <= |Refreshed(whole, key, value)|
    ensures AfterPut(es, key, value, maxTokens) == Refreshed(whole, key, value)[n..]
  {
    var r := Refreshed(es, key, value);
    n := m + Evictions(r, maxTokens);
    assert r == Refreshed(whole, key, value)[m..];
  }

  /** The budget holds after every operation of every run. */
  lemma {:induction false} BudgetHolds<K>(ops: seq<Op<K>>, maxTokens: nat)
    ensures Tokens(RunOps(ops, maxTokens)) <= maxTokens
  {
    if ops != [] {
      BudgetHolds(Front(ops), maxTokens);
      var es := RunOps(Front(ops), maxTokens);
      match Last(ops)
      case Put(k, v) =>
        KeepsLongestSuffix(Refreshed(es, k, v), maxTokens);
      case Delete(k) =>
        var i := Position(es, k);
        if i < |es| {
          TokensRemoveAt(es, i);
        }
    }
  }
}
