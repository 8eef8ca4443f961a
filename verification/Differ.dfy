/** Position and order diffs between the broker and the internal state. */
module Differ {
  import opened Common
  import opened Numbers
  import opened Ticks

  const RECONCILIATION_TOLERANCE_PRICE_PCT := 0.001

  datatype BrokerPosition = BrokerPosition(symbol: string, exchange: string, quantity: int, avgPrice: real)
  datatype InternalPosition = InternalPosition(symbol: string, exchange: string, quantity: int, avgPrice: real)
  datatype BrokerOrder = BrokerOrder(clientOrderId: string, symbol: string, exchange: string, status: string)
  datatype InternalOrder = InternalOrder(clientOrderId: string, symbol: string, exchange: string, status: string)

  datatype MismatchField = Quantity | AvgPrice | OrderStatus | PositionMissing | OrderMissing | UnexpectedPosition
      | UnexpectedOrder

  /** A reported value, before it is rendered as text. */
  datatype Shown = Count(n: int) | Price(p: real) | Status(text: string) | NotFound

  datatype Mismatch = Mismatch(symbol: string, exchange: string, field: MismatchField,
    internalValue: Shown, brokerValue: Shown, detectedAtMs: int)

  function MismatchKey(m: Mismatch): string {
    Key(m.exchange, m.symbol)
  }

  // ---- Dictionaries built by a comprehension: first insertion fixes the place, the last value wins ----

  datatype Dict<V> = Dict(keys: seq<string>, values: map<string, V>)

  ghost predicate IsDict<V>(d: Dict<V>) {
    NoDuplicates(d.keys) && (forall k :: k in d.keys <==> k in d.values)
  }

  function LastWins<V>(items: seq<V>, key: V -> string): Dict<V> {
    if items == [] then Dict([], map[])
    else
      var d, k := LastWins(Front(items), key), key(Last(items));
      Dict(if k in d.values then d.keys else d.keys + [k], d.values[k := Last(items)])
  }

  function Lookup<V>(d: Dict<V>, k: string): Option<V> {
    if k in d.values then Some(d.values[k]) else None
  }

  /** The last item with this key, independently of any dictionary. */
  function LastWith<V>(items: seq<V>, key: V -> string, k: string): Option<V> {
    if items == [] then None
    else if key(Last(items)) == k then Some(Last(items)) else LastWith(Front(items), key, k)
  }

  lemma {:induction false} LastWinsIsLast<V>(items: seq<V>, key: V -> string, k: string)
    ensures Lookup(LastWins(items, key), k) == LastWith(items, key, k)
    ensures LastWith(items, key, k).Some? ==> key(LastWith(items, key, k).value) == k
  {
    if items != [] {
      LastWinsIsLast(Front(items), key, k);
    }
  }

  /** v is the item that comes last among those with this key, if there are any. */
  ghost predicate IsLastListing<V>(items: seq<V>, key: V -> string, k: string, v: Option<V>) {
    match v
    case None => forall j :: 0 <= j < |items| ==> key(items[j]) != k
    case Some(x) =>
      exists n :: 0 <= n < |items| && items[n] == x && key(items[n]) == k
                  && forall j :: n < j < |items| ==> key(items[j]) != k
  }

  lemma ListingExtends<V>(front: seq<V>, last: V, key: V -> string, k: string, v: Option<V>)
    requires IsLastListing(front, key, k, v) && key(last) != k
    ensures IsLastListing(front + [last], key, k, v)
  {
    var items := front + [last];
    if v.Some? {
      var n :| 0 <= n < |front| && front[n] == v.value && key(front[n]) == k
        && forall j :: n < j < |front| ==> key(front[j]) != k;
      assert items[n] == v.value;
    }
  }

  lemma {:induction false} LastWithListed<V>(items: seq<V>, key: V -> string, k: string)
    ensures IsLastListing(items, key, k, LastWith(items, key, k))
  {
    if items != [] {
      var front, last := Front(items), Last(items);
      if key(last) == k {
        assert items[|items| - 1] == last;
      } else {
        LastWithListed(front, key, k);
        FrontLast(items);
        ListingExtends(front, last, key, k, LastWith(front, key, k));
      }
    }
  }

  /** The last listing is what the dictionary ends up with. */
  lemma {:induction false} LastWithIsLastListing<V>(items: seq<V>, key: V -> string, k: string, v: Option<V>)
    ensures IsLastListing(items, key, k, v) <==> v == LastWith(items, key, k) == Lookup(LastWins(items, key), k)
  {
    LastWithListed(items, key, k);
    LastWinsIsLast(items, key, k);
    OneLastListing(items, key, k, v, LastWith(items, key, k));
    hide IsLastListing, LastWith, LastWins;
  }

  lemma OneLastListing<V>(items: seq<V>, key: V -> string, k: string, v: Option<V>, w: Option<V>)
    requires IsLastListing(items, key, k, w)
    ensures IsLastListing(items, key, k, v) <==> v == w
  {
  }

  /** A dictionary lists its keys in the order in which they first occur. */
  lemma {:induction false} KeysInFirstOrder<V>(items: seq<V>, key: V -> string, i: nat, j: nat)
    requires i < j < |LastWins(items, key).keys|
    ensures var keys := LastWins(items, key).keys;
            exists n :: 0 <= n < |items| && key(items[n]) == keys[i]
                        && forall m :: 0 <= m <= n ==> key(items[m]) != keys[j]
  {
    var front, last, keys := Front(items), Last(items), LastWins(items, key).keys;
    var before := LastWins(front, key).keys;
    LastWinsIsDict(front, key);
    assert forall m :: 0 <= m < |front| ==> front[m] == items[m];
    if j < |before| {
      KeysInFirstOrder(front, key, i, j);
      var n :| 0 <= n < |front| && key(front[n]) == keys[i] && forall m :: 0 <= m <= n ==> key(front[m]) != keys[j];
      assert key(items[n]) == keys[i];
    } else {
      var n := KeyOccurs(front, key, keys[i]);
      assert key(items[n]) == keys[i];
      forall m | 0 <= m <= n
        ensures key(items[m]) != keys[j]
      {
        KeyListed(front, key, m);
      }
    }
  }

  lemma {:induction false} KeyOccurs<V>(items: seq<V>, key: V -> string, k: string) returns (n: nat)
    requires k in LastWins(items, key).keys
    ensures n < |items| && key(items[n]) == k
  {
    LastWinsIsDict(Front(items), key);
    if k in LastWins(Front(items), key).keys {
      n := KeyOccurs(Front(items), key, k);
    } else {
      n := |items| - 1;
    }
  }

  lemma {:induction false} KeyListed<V>(items: seq<V>, key: V -> string, n: nat)
    requires n < |items|
    ensures key(items[n]) in LastWins(items, key).values
  {
    if n < |items| - 1 {
      KeyListed(Front(items), key, n);
    }
  }

  lemma {:induction false} LastWinsIsDict<V>(items: seq<V>, key: V -> string)
    ensures IsDict(LastWins(items, key))
  {
    if items != [] {
      LastWinsIsDict(Front(items), key);
      var d, k := LastWins(Front(items), key), key(Last(items));
      if k !in d.values {
        AddKey(d, k, Last(items));
      }
    }
  }

  lemma AddKey<V>(d: Dict<V>, k: string, v: V)
    requires IsDict(d) && k !in d.values
    ensures IsDict(Dict(d.keys + [k], d.values[k := v]))
  {
    assert forall i :: 0 <= i < |d.keys| ==> d.keys[i] in d.keys;
  }

  // ---- What a discrepancy is, per key ----

  /** The average prices differ by more than the tolerance, relative to a positive internal price. */
  predicate PricesDiffer(brokerPrice: real, internalPrice: real) {
    internalPrice > 0.0 && Abs(brokerPrice - internalPrice) / internalPrice > RECONCILIATION_TOLERANCE_PRICE_PCT
  }

  /** A key reconciles: both sides flat or absent, or same quantity and close enough price. */
  predicate PositionReconciles(b: Option<BrokerPosition>, i: Option<InternalPosition>) {
    if b.None? then i.None? || i.value.quantity == 0
    else if i.None? then b.value.quantity == 0
    else b.value.quantity == i.value.quantity && !PricesDiffer(b.value.avgPrice, i.value.avgPrice)
  }

  /** The records owed for one key. */
  function PositionFindings(b: Option<BrokerPosition>, i: Option<InternalPosition>, ts: int): seq<Mismatch> {
    match (b, i)
    case (None, None) => []
    case (None, Some(p)) =>
      if p.quantity == 0 then []
      else [Mismatch(p.symbol, p.exchange, PositionMissing, Count(p.quantity), Count(0), ts)]
    case (Some(q), None) =>
      if q.quantity == 0 then []
      else [Mismatch(q.symbol, q.exchange, UnexpectedPosition, Count(0), Count(q.quantity), ts)]
    case (Some(q), Some(p)) =>
      (if q.quantity == p.quantity then []
       else [Mismatch(p.symbol, p.exchange, Quantity, Count(p.quantity), Count(q.quantity), ts)])
      + (if PricesDiffer(q.avgPrice, p.avgPrice)
         then [Mismatch(p.symbol, p.exchange, AvgPrice, Price(p.avgPrice), Price(q.avgPrice), ts)] else [])
  }

  function Upper(s: string): string {
    if s == "" then "" else [if 'a' <= s[0] <= 'z' then (s[0] as int - 32) as char else s[0]] + Upper(s[1..])
  }

  predicate OrderReconciles(b: Option<BrokerOrder>, i: Option<InternalOrder>) {
    if b.Some? && i.Some? then Upper(b.value.status) == Upper(i.value.status) else b.None? && i.None?
  }

  function OrderFindings(b: Option<BrokerOrder>, i: Option<InternalOrder>, ts: int): seq<Mismatch> {
    match (b, i)
    case (None, None) => []
    case (None, Some(o)) => [Mismatch(o.symbol, o.exchange, OrderMissing, Status(o.status), NotFound, ts)]
    case (Some(o), None) => [Mismatch(o.symbol, o.exchange, UnexpectedOrder, NotFound, Status(o.status), ts)]
    case (Some(o), Some(p)) =>
      if Upper(o.status) == Upper(p.status) then []
      else [Mismatch(p.symbol, p.exchange, OrderStatus, Status(p.status), Status(o.status), ts)]
  }

  // ---- The two passes ----

  /** The findings of the listed keys, in order. */
  function Flat(keys: seq<string>, findings: string -> seq<Mismatch>): seq<Mismatch> {
    if keys == [] then [] else Flat(Front(keys), findings) + findings(Last(keys))
  }

  function KeysOutside<V>(keys: seq<string>, values: map<string, V>): seq<string> {
    if keys == [] then []
    else if Last(keys) in values then KeysOutside(Front(keys), values)
    else KeysOutside(Front(keys), values) + [Last(keys)]
  }

  /** Internal keys first, then the broker's other keys. */
  function AllKeys<B, I>(bd: Dict<B>, id: Dict<I>): seq<string> {
    id.keys + KeysOutside(bd.keys, id.values)
  }

  function BrokerPositionKey(p: BrokerPosition): string {
    Key(p.exchange, p.symbol)
  }

  function InternalPositionKey(p: InternalPosition): string {
    Key(p.exchange, p.symbol)
  }

  function BrokerOrderKey(o: BrokerOrder): string {
    o.clientOrderId
  }

  function InternalOrderKey(o: InternalOrder): string {
    o.clientOrderId
  }

  function PositionsAt(bd: Dict<BrokerPosition>, id: Dict<InternalPosition>, ts: int): string -> seq<Mismatch> {
    k => PositionFindings(Lookup(bd, k), Lookup(id, k), ts)
  }

  function OrdersAt(bd: Dict<BrokerOrder>, id: Dict<InternalOrder>, ts: int): string -> seq<Mismatch> {
    k => OrderFindings(Lookup(bd, k), Lookup(id, k), ts)
  }

  function PositionReport(broker: seq<BrokerPosition>, internals: seq<InternalPosition>, ts: int): seq<Mismatch> {
    var bd, id := LastWins(broker, BrokerPositionKey), LastWins(internals, InternalPositionKey);
    Flat(AllKeys(bd, id), PositionsAt(bd, id, ts))
  }

  function OrderReport(broker: seq<BrokerOrder>, internals: seq<InternalOrder>, ts: int): seq<Mismatch> {
    var bd, id := LastWins(broker, BrokerOrderKey), LastWins(internals, InternalOrderKey);
    Flat(AllKeys(bd, id), OrdersAt(bd, id, ts))
  }

  lemma FlatSnoc(keys: seq<string>, k: string, findings: string -> seq<Mismatch>)
    ensures Flat(keys + [k], findings) == Flat(keys, findings) + findings(k)
  {
    AppendFrontLast(keys, k);
  }

  lemma ListedKey<V>(d: Dict<V>, n: nat)
    requires IsDict(d) && n < |d.keys|
    ensures d.keys[n] in d.values
  {
  }

  /** One more internal key. */
  lemma FirstPassStep(keys: seq<string>, n: nat, at: string -> seq<Mismatch>)
    requires n < |keys|
    ensures Flat(keys[..n + 1], at) == Flat(keys[..n], at) + at(keys[n])
  {
    assert keys[..n + 1] == keys[..n] + [keys[n]];
    FlatSnoc(keys[..n], keys[n], at);
  }

  /** One more broker key, after the internal keys `front`. */
  lemma SecondPassStep<V>(front: seq<string>, keys: seq<string>, n: nat, values: map<string, V>,
      at: string -> seq<Mismatch>)
    requires n < |keys|
    ensures Flat(front + KeysOutside(keys[..n + 1], values), at)
         == Flat(front + KeysOutside(keys[..n], values), at) + (if keys[n] in values then [] else at(keys[n]))
  {
    assert keys[..n + 1] == keys[..n] + [keys[n]];
    AppendFrontLast(keys[..n], keys[n]);
    var before := KeysOutside(keys[..n], values);
    FlatSnoc(front + before, keys[n], at);
    assert front + (before + [keys[n]]) == (front + before) + [keys[n]];
  }

  lemma SecondPassStart<V>(front: seq<string>, keys: seq<string>, values: map<string, V>, at: string -> seq<Mismatch>)
    ensures Flat(front + KeysOutside(keys[..0], values), at) == Flat(front, at)
    ensures front[..|front|] == front && keys[..|keys|] == keys
    ensures Flat(front[..0], at) == []
  {
    assert front + [] == front;
  }

  method ComparePosition(internal: InternalPosition, broker: Option<BrokerPosition>, ts: int)
      returns (out: seq<Mismatch>)
    ensures out == PositionFindings(broker, Some(internal), ts)
  {
    out := [];
    if broker.None? {
      if internal.quantity != 0 {
        out := out + [Mismatch(internal.symbol, internal.exchange, PositionMissing, Count(internal.quantity), Count(0),
            ts)];
      }
      return;
    }
    var b := broker.value;
    if b.quantity != internal.quantity {
      out := out + [Mismatch(internal.symbol, internal.exchange, Quantity, Count(internal.quantity), Count(b.quantity),
          ts)];
    }
    if internal.avgPrice > 0.0 {
      var delta := Abs(b.avgPrice - internal.avgPrice) / internal.avgPrice;
      if delta > RECONCILIATION_TOLERANCE_PRICE_PCT {
        out := out + [Mismatch(internal.symbol, internal.exchange, AvgPrice, Price(internal.avgPrice),
            Price(b.avgPrice), ts)];
      }
    }
  }

  method DiffPositions(broker: seq<BrokerPosition>, internals: seq<InternalPosition>, ts: int)
      returns (out: seq<Mismatch>)
    ensures out == PositionReport(broker, internals, ts)
  {
    var bd, id := LastWins(broker, BrokerPositionKey), LastWins(internals, InternalPositionKey);
    LastWinsIsDict(broker, BrokerPositionKey);
    LastWinsIsDict(internals, InternalPositionKey);
    ghost var at := PositionsAt(bd, id, ts);
    SecondPassStart(id.keys, bd.keys, id.values, at);
    hide LastWins, IsDict, Flat, KeysOutside;
    out := [];
    for n := 0 to |id.keys|
      invariant out == Flat(id.keys[..n], at)
    {
      var key := id.keys[n];
      FirstPassStep(id.keys, n, at);
      ListedKey(id, n);
      var found := ComparePosition(id.values[key], Lookup(bd, key), ts);
      out := out + found;
    }
    for n := 0 to |bd.keys|
      invariant out == Flat(id.keys + KeysOutside(bd.keys[..n], id.values), at)
    {
      var key := bd.keys[n];
      SecondPassStep(id.keys, bd.keys, n, id.values, at);
      ListedKey(bd, n);
      var b := bd.values[key];
      if key !in id.values && b.quantity != 0 {
        out := out + [Mismatch(b.symbol, b.exchange, UnexpectedPosition, Count(0), Count(b.quantity), ts)];
      }
    }
  }

  method DiffOrders(broker: seq<BrokerOrder>, internals: seq<InternalOrder>, ts: int) returns (out: seq<Mismatch>)
    ensures out == OrderReport(broker, internals, ts)
  {
    var bd, id := LastWins(broker, BrokerOrderKey), LastWins(internals, InternalOrderKey);
    LastWinsIsDict(broker, BrokerOrderKey);
    LastWinsIsDict(internals, InternalOrderKey);
    ghost var at := OrdersAt(bd, id, ts);
    SecondPassStart(id.keys, bd.keys, id.values, at);
    hide LastWins, IsDict, Flat, KeysOutside, Upper;
    out := [];
    for n := 0 to |id.keys|
      invariant out == Flat(id.keys[..n], at)
    {
      var coid := id.keys[n];
      FirstPassStep(id.keys, n, at);
      ListedKey(id, n);
      var i := id.values[coid];
      if coid !in bd.values {
        out := out + [Mismatch(i.symbol, i.exchange, OrderMissing, Status(i.status), NotFound, ts)];
        continue;
      }
      var b := bd.values[coid];
      if Upper(b.status) != Upper(i.status) {
        out := out + [Mismatch(i.symbol, i.exchange, OrderStatus, Status(i.status), Status(b.status), ts)];
      }
    }
    for n := 0 to |bd.keys|
      invariant out == Flat(id.keys + KeysOutside(bd.keys[..n], id.values), at)
    {
      var coid := bd.keys[n];
      SecondPassStep(id.keys, bd.keys, n, id.values, at);
      ListedKey(bd, n);
      if coid !in id.values {
        var b := bd.values[coid];
        out := out + [Mismatch(b.symbol, b.exchange, UnexpectedOrder, NotFound, Status(b.status), ts)];
      }
    }
  }

  // ---- Soundness and completeness ----

  lemma {:induction false} KeysOutsideAre<V>(keys: seq<string>, values: map<string, V>)
    requires NoDuplicates(keys)
    ensures NoDuplicates(KeysOutside(keys, values))
    ensures forall k :: k in KeysOutside(keys, values) <==> k in keys && k !in values
  {
    if keys != [] {
      var front, last := Front(keys), Last(keys);
      assert NoDuplicates(front) && last !in front;
      assert forall k :: k in keys <==> k in front || k == last;
      KeysOutsideAre(front, values);
      SnocElements(KeysOutside(front, values), last);
    }
  }

  lemma SnocElements(s: seq<string>, x: string)
    ensures forall k :: k in s + [x] <==> k in s || k == x
    ensures NoDuplicates(s) && x !in s ==> NoDuplicates(s + [x])
  {
    assert forall i :: 0 <= i < |s| ==> s[i] in s;
    assert (s + [x])[|s|] == x;
    assert forall i :: 0 <= i < |s| ==> (s + [x])[i] == s[i];
  }

  /** The keys visited are exactly the keys known to either side, each once. */
  lemma AllKeysOnce<B, I>(bd: Dict<B>, id: Dict<I>)
    requires IsDict(bd) && IsDict(id)
    ensures NoDuplicates(AllKeys(bd, id))
    ensures forall k :: k in AllKeys(bd, id) <==> Lookup(bd, k).Some? || Lookup(id, k).Some?
  {
    KeysOutsideAre(bd.keys, id.values);
    var a, b := id.keys, KeysOutside(bd.keys, id.values);
    hide KeysOutside;
    assert forall k :: k in a + b <==> k in a || k in b;
    forall i, j | 0 <= i < j < |a + b|
      ensures (a + b)[i] != (a + b)[j]
    {
      if i < |a| && j >= |a| {
        assert a[i] in a && b[j - |a|] in b;
      }
    }
  }

  lemma {:induction false} FlatEmpty(keys: seq<string>, at: string -> seq<Mismatch>)
    ensures Flat(keys, at) == [] <==> forall k :: k in keys ==> at(k) == []
  {
    if keys != [] {
      FlatEmpty(Front(keys), at);
      assert forall k :: k in keys <==> k in Front(keys) || k == Last(keys);
    }
  }

  /** The records of the report that carry `key`, in order. */
  function RecordsFor(out: seq<Mismatch>, key: string): seq<Mismatch> {
    if out == [] then []
    else if MismatchKey(Last(out)) == key then RecordsFor(Front(out), key) + [Last(out)]
    else RecordsFor(Front(out), key)
  }

  lemma {:induction false} RecordsConcat(a: seq<Mismatch>, b: seq<Mismatch>, key: string)
    ensures RecordsFor(a + b, key) == RecordsFor(a, key) + RecordsFor(b, key)
  {
    if b == [] {
      assert a + b == a;
    } else {
      assert Front(a + b) == a + Front(b) && Last(a + b) == Last(b);
      RecordsConcat(a, Front(b), key);
    }
  }

  lemma {:induction false} AllOrNothing(ms: seq<Mismatch>, own: string, key: string)
    requires forall m :: m in ms ==> MismatchKey(m) == own
    ensures RecordsFor(ms, key) == if own == key then ms else []
  {
    if ms != [] {
      assert forall m :: m in Front(ms) ==> m in ms;
      AllOrNothing(Front(ms), own, key);
      FrontLast(ms);
    }
  }

  lemma {:induction false} RecordsOfFlat(keys: seq<string>, at: string -> seq<Mismatch>, key: string)
    requires NoDuplicates(keys)
    requires forall k, m :: k in keys && m in at(k) ==> MismatchKey(m) == k
    ensures RecordsFor(Flat(keys, at), key) == if key in keys then at(key) else []
  {
    if keys != [] {
      var front, last := Front(keys), Last(keys);
      assert forall k :: k in keys <==> k in front || k == last;
      assert NoDuplicates(front) && last !in front;
      RecordsOfFlat(front, at, key);
      RecordsConcat(Flat(front, at), at(last), key);
      AllOrNothing(at(last), last, key);
    }
  }

  /** What the dictionaries say of one key is what its last listings say. */
  lemma PositionLookup(broker: seq<BrokerPosition>, internals: seq<InternalPosition>, ts: int, k: string)
    ensures var bd, id := LastWins(broker, BrokerPositionKey), LastWins(internals, InternalPositionKey);
            var b, i := LastWith(broker, BrokerPositionKey, k), LastWith(internals, InternalPositionKey, k);
            && Lookup(bd, k) == b && Lookup(id, k) == i
            && PositionsAt(bd, id, ts)(k) == PositionFindings(b, i, ts)
            && (forall m :: m in PositionFindings(b, i, ts) ==> MismatchKey(m) == k)
            && (PositionFindings(b, i, ts) == [] <==> PositionReconciles(b, i))
            && (b.None? && i.None? ==> PositionFindings(b, i, ts) == [])
  {
    LastWinsIsLast(broker, BrokerPositionKey, k);
    LastWinsIsLast(internals, InternalPositionKey, k);
    hide LastWins, LastWith, PricesDiffer;
  }

  predicate DistinctFields(ms: seq<Mismatch>) {
    forall x, y :: 0 <= x < y < |ms| ==> ms[x].field != ms[y].field
  }

  lemma FindingsDistinct(b: Option<BrokerPosition>, i: Option<InternalPosition>, ts: int)
    ensures DistinctFields(PositionFindings(b, i, ts))
  {
    hide PricesDiffer;
  }

  /** The position report against the per-key specification, with the last listing of each
      key on either side: the records it carries for a key are exactly the findings of that
      key, so every discrepancy is reported, once, and nothing else is; no two concern the same field. */
  lemma {:induction false} PositionReportIsExact(broker: seq<BrokerPosition>, internals: seq<InternalPosition>,
      ts: int, key: string)
    ensures RecordsFor(PositionReport(broker, internals, ts), key)
         == PositionFindings(LastWith(broker, BrokerPositionKey, key),
                             LastWith(internals, InternalPositionKey, key), ts)
    ensures DistinctFields(RecordsFor(PositionReport(broker, internals, ts), key))
  {
    var bd, id := LastWins(broker, BrokerPositionKey), LastWins(internals, InternalPositionKey);
    var at := PositionsAt(bd, id, ts);
    LastWinsIsDict(broker, BrokerPositionKey);
    LastWinsIsDict(internals, InternalPositionKey);
    AllKeysOnce(bd, id);
    PositionLookup(broker, internals, ts, key);
    FindingsDistinct(LastWith(broker, BrokerPositionKey, key), LastWith(internals, InternalPositionKey, key), ts);
    hide LastWins, LastWith, IsDict, AllKeys, RecordsFor, Flat, PositionFindings, Lookup, DistinctFields;
    forall k
      ensures forall m :: m in at(k) ==> MismatchKey(m) == k
    {
      PositionLookup(broker, internals, ts, k);
    }
    RecordsOfFlat(AllKeys(bd, id), at, key);
  }

  lemma {:induction false} InRecordsFor(out: seq<Mismatch>, key: string, m: Mismatch)
    ensures m in RecordsFor(out, key) <==> m in out && MismatchKey(m) == key
  {
    if out != [] {
      InRecordsFor(Front(out), key, m);
      assert m in out <==> m in Front(out) || m == Last(out);
    }
  }

  /** The records owed for a key, from its two last listings: the one listed side if it is not flat; of two listings
      the quantities if they differ and, besides, the prices if they differ by more than 0.1 percent of a positive
      internal price. The internal value comes first, and both-sided records name the internal instrument. */
  ghost predicate PositionRecordOwed(m: Mismatch, b: Option<BrokerPosition>, i: Option<InternalPosition>, ts: int) {
    match (b, i)
    case (None, None) => false
    case (None, Some(p)) =>
      p.quantity != 0 && m == Mismatch(p.symbol, p.exchange, PositionMissing, Count(p.quantity), Count(0), ts)
    case (Some(q), None) =>
      q.quantity != 0 && m == Mismatch(q.symbol, q.exchange, UnexpectedPosition, Count(0), Count(q.quantity), ts)
    case (Some(q), Some(p)) =>
      || (&& q.quantity != p.quantity
          && m == Mismatch(p.symbol, p.exchange, Quantity, Count(p.quantity), Count(q.quantity), ts))
      || (&& p.avgPrice > 0.0
          && (q.avgPrice - p.avgPrice > 0.001 * p.avgPrice || p.avgPrice - q.avgPrice > 0.001 * p.avgPrice)
          && m == Mismatch(p.symbol, p.exchange, AvgPrice, Price(p.avgPrice), Price(q.avgPrice), ts))
  }

  lemma PricesInNumbers(brokerPrice: real, internalPrice: real)
    ensures PricesDiffer(brokerPrice, internalPrice) <==>
            && internalPrice > 0.0
            && (|| brokerPrice - internalPrice > 0.001 * internalPrice
                || internalPrice - brokerPrice > 0.001 * internalPrice)
  {
    if internalPrice > 0.0 {
      QuotientOrder(Abs(brokerPrice - internalPrice), internalPrice, 0.001);
    }
  }

  lemma FindingsAreOwed(m: Mismatch, b: Option<BrokerPosition>, i: Option<InternalPosition>, ts: int)
    ensures m in PositionFindings(b, i, ts) <==> PositionRecordOwed(m, b, i, ts)
  {
    if b.Some? && i.Some? {
      PricesInNumbers(b.value.avgPrice, i.value.avgPrice);
      hide PricesDiffer;
    }
  }

  /** A record is in the position report exactly when it is owed for its key, by that key's last listings. */
  lemma {:induction false} PositionRecordsInFull(broker: seq<BrokerPosition>, internals: seq<InternalPosition>, ts: int,
      m: Mismatch, b: Option<BrokerPosition>, i: Option<InternalPosition>)
    requires IsLastListing(broker, BrokerPositionKey, MismatchKey(m), b)
    requires IsLastListing(internals, InternalPositionKey, MismatchKey(m), i)
    ensures m in PositionReport(broker, internals, ts) <==> PositionRecordOwed(m, b, i, ts)
  {
    var key := MismatchKey(m);
    LastWithIsLastListing(broker, BrokerPositionKey, key, b);
    LastWithIsLastListing(internals, InternalPositionKey, key, i);
    PositionReportIsExact(broker, internals, ts, key);
    InRecordsFor(PositionReport(broker, internals, ts), key, m);
    FindingsAreOwed(m, b, i, ts);
    hide PositionReport, PositionFindings, PositionRecordOwed, IsLastListing, LastWith, RecordsFor;
  }

  /** The position report is empty exactly when every key reconciles. */
  lemma {:induction false} PositionReportEmpty(broker: seq<BrokerPosition>, internals: seq<InternalPosition>, ts: int)
    ensures PositionReport(broker, internals, ts) == []
       <==> forall k ::
              PositionReconciles(LastWith(broker, BrokerPositionKey, k), LastWith(internals, InternalPositionKey, k))
  {
    var bd, id := LastWins(broker, BrokerPositionKey), LastWins(internals, InternalPositionKey);
    var at := PositionsAt(bd, id, ts);
    LastWinsIsDict(broker, BrokerPositionKey);
    LastWinsIsDict(internals, InternalPositionKey);
    AllKeysOnce(bd, id);
    hide LastWins, LastWith, IsDict, AllKeys, Flat, PositionFindings, Lookup, PositionReconciles, PositionsAt;
    FlatEmpty(AllKeys(bd, id), at);
    if PositionReport(broker, internals, ts) == [] {
      forall k
        ensures PositionReconciles(LastWith(broker, BrokerPositionKey, k), LastWith(internals, InternalPositionKey, k))
      {
        PositionLookup(broker, internals, ts, k);
      }
    } else {
      var k :| k in AllKeys(bd, id) && at(k) != [];
      PositionLookup(broker, internals, ts, k);
    }
  }

  /** How many order ids fail to reconcile. */
  function Unreconciled(keys: seq<string>, bd: Dict<BrokerOrder>, id: Dict<InternalOrder>): nat {
    if keys == [] then 0
    else
      Unreconciled(Front(keys), bd, id) +
      (if OrderReconciles(Lookup(bd, Last(keys)), Lookup(id, Last(keys))) then 0 else 1)
  }

  lemma {:induction false} OneRecordEach(keys: seq<string>, bd: Dict<BrokerOrder>, id: Dict<InternalOrder>, ts: int)
    ensures |Flat(keys, OrdersAt(bd, id, ts))| == Unreconciled(keys, bd, id)
  {
    if keys != [] {
      OneRecordEach(Front(keys), bd, id, ts);
    }
  }

  lemma OrderLookup(broker: seq<BrokerOrder>, internals: seq<InternalOrder>, ts: int, k: string)
    ensures var bd, id := LastWins(broker, BrokerOrderKey), LastWins(internals, InternalOrderKey);
            var b, i := LastWith(broker, BrokerOrderKey, k), LastWith(internals, InternalOrderKey, k);
            && Lookup(bd, k) == b && Lookup(id, k) == i
            && (OrdersAt(bd, id, ts)(k) == [] <==> OrderReconciles(b, i))
            && (b.None? && i.None? ==> OrdersAt(bd, id, ts)(k) == [])
  {
    LastWinsIsLast(broker, BrokerOrderKey, k);
    LastWinsIsLast(internals, InternalOrderKey, k);
    hide LastWins, LastWith, Upper;
  }

  lemma OneFindingAtMost(b: Option<BrokerOrder>, i: Option<InternalOrder>, ts: int)
    ensures |OrderFindings(b, i, ts)| <= 1
  {
    hide Upper;
  }

  /** The listed keys whose findings are just this record. */
  function Witnesses(keys: seq<string>, at: string -> seq<Mismatch>, m: Mismatch): set<string> {
    set k | k in keys && at(k) == [m]
  }

  /** When every key has one finding at most, a record occurs as often as keys have it for theirs. */
  lemma {:induction false} OccurrencesInFlat(keys: seq<string>, at: string -> seq<Mismatch>, m: Mismatch)
    requires NoDuplicates(keys) && forall k :: k in keys ==> |at(k)| <= 1
    ensures multiset(Flat(keys, at))[m] == |Witnesses(keys, at, m)|
  {
    if keys == [] {
      assert Witnesses(keys, at, m) == {};
    } else {
      var front, last := Front(keys), Last(keys);
      FrontLast(keys);
      OccurrencesInFlat(front, at, m);
      assert last !in front;
      if at(last) == [m] {
        assert Witnesses(keys, at, m) == Witnesses(front, at, m) + {last};
      } else {
        assert Witnesses(keys, at, m) == Witnesses(front, at, m);
        assert at(last) == [] || at(last) == [at(last)[0]];
      }
    }
  }

  /** The order ids, known to either side, whose last listings amount to just this record. */
  ghost function DiscrepantIds(broker: seq<BrokerOrder>, internals: seq<InternalOrder>, ts: int,
      m: Mismatch): set<string> {
    set k | k in AllKeys(LastWins(broker, BrokerOrderKey), LastWins(internals, InternalOrderKey))
         && OrderFindings(LastWith(broker, BrokerOrderKey, k), LastWith(internals, InternalOrderKey, k), ts) == [m]
  }

  /** No id is missing from that set. */
  lemma DiscrepantIdsAreAll(broker: seq<BrokerOrder>, internals: seq<InternalOrder>, ts: int, m: Mismatch, k: string)
    ensures k in DiscrepantIds(broker, internals, ts, m)
       <==> OrderFindings(LastWith(broker, BrokerOrderKey, k), LastWith(internals, InternalOrderKey, k), ts) == [m]
  {
    LastWinsIsDict(broker, BrokerOrderKey);
    LastWinsIsDict(internals, InternalOrderKey);
    AllKeysOnce(LastWins(broker, BrokerOrderKey), LastWins(internals, InternalOrderKey));
    OrderLookup(broker, internals, ts, k);
    hide LastWins, LastWith, IsDict, AllKeys, Upper;
  }

  lemma OrderReportCounted(broker: seq<BrokerOrder>, internals: seq<InternalOrder>, ts: int)
    ensures var bd, id := LastWins(broker, BrokerOrderKey), LastWins(internals, InternalOrderKey);
            && NoDuplicates(AllKeys(bd, id))
            && (forall k :: k in AllKeys(bd, id) <==>
                  LastWith(broker, BrokerOrderKey, k).Some? || LastWith(internals, InternalOrderKey, k).Some?)
            && |OrderReport(broker, internals, ts)| == Unreconciled(AllKeys(bd, id), bd, id)
  {
    var bd, id := LastWins(broker, BrokerOrderKey), LastWins(internals, InternalOrderKey);
    LastWinsIsDict(broker, BrokerOrderKey);
    LastWinsIsDict(internals, InternalOrderKey);
    AllKeysOnce(bd, id);
    hide LastWins, LastWith, IsDict, AllKeys, Flat, Upper, Unreconciled, Lookup;
    forall k
      ensures Lookup(bd, k) == LastWith(broker, BrokerOrderKey, k)
      ensures Lookup(id, k) == LastWith(internals, InternalOrderKey, k)
    {
      OrderLookup(broker, internals, ts, k);
    }
    OneRecordEach(AllKeys(bd, id), bd, id, ts);
  }

  lemma OrderOccurrences(broker: seq<BrokerOrder>, internals: seq<InternalOrder>, ts: int, m: Mismatch)
    ensures multiset(OrderReport(broker, internals, ts))[m] == |DiscrepantIds(broker, internals, ts, m)|
  {
    var bd, id := LastWins(broker, BrokerOrderKey), LastWins(internals, InternalOrderKey);
    var at := OrdersAt(bd, id, ts);
    LastWinsIsDict(broker, BrokerOrderKey);
    LastWinsIsDict(internals, InternalOrderKey);
    AllKeysOnce(bd, id);
    hide LastWins, LastWith, IsDict, AllKeys, Flat, Upper, Lookup, OrderFindings;
    forall k
      ensures at(k) == OrderFindings(LastWith(broker, BrokerOrderKey, k), LastWith(internals, InternalOrderKey, k), ts)
      ensures |at(k)| <= 1
    {
      OrderLookup(broker, internals, ts, k);
      OneFindingAtMost(Lookup(bd, k), Lookup(id, k), ts);
    }
    OccurrencesInFlat(AllKeys(bd, id), at, m);
    assert Witnesses(AllKeys(bd, id), at, m) == DiscrepantIds(broker, internals, ts, m);
  }

  /** Each record occurs in the order report as often as there are order ids with this very finding, whatever the
      record; the report has one record per id that fails to reconcile, over all ids known to either side. */
  lemma {:induction false} OrderReportIsExact(broker: seq<BrokerOrder>, internals: seq<InternalOrder>, ts: int,
      m: Mismatch)
    ensures multiset(OrderReport(broker, internals, ts))[m] == |DiscrepantIds(broker, internals, ts, m)|
    ensures forall k :: k in DiscrepantIds(broker, internals, ts, m) <==>
              OrderFindings(LastWith(broker, BrokerOrderKey, k), LastWith(internals, InternalOrderKey, k), ts) == [m]
    ensures var bd, id := LastWins(broker, BrokerOrderKey), LastWins(internals, InternalOrderKey);
            && NoDuplicates(AllKeys(bd, id))
            && (forall k :: k in AllKeys(bd, id) <==>
                  LastWith(broker, BrokerOrderKey, k).Some? || LastWith(internals, InternalOrderKey, k).Some?)
            && |OrderReport(broker, internals, ts)| == Unreconciled(AllKeys(bd, id), bd, id)
  {
    hide LastWins, LastWith, IsDict, AllKeys, Flat, Upper, Unreconciled, Lookup, OrderFindings, DiscrepantIds;
    OrderReportCounted(broker, internals, ts);
    OrderOccurrences(broker, internals, ts, m);
    forall k
      ensures k in DiscrepantIds(broker, internals, ts, m) <==>
                OrderFindings(LastWith(broker, BrokerOrderKey, k), LastWith(internals, InternalOrderKey, k), ts) == [m]
    {
      DiscrepantIdsAreAll(broker, internals, ts, m, k);
    }
  }

  /** The order report is empty exactly when every order id reconciles. */
  lemma {:induction false} OrderReportEmpty(broker: seq<BrokerOrder>, internals: seq<InternalOrder>, ts: int)
    ensures OrderReport(broker, internals, ts) == []
       <==> forall k :: OrderReconciles(LastWith(broker, BrokerOrderKey, k), LastWith(internals, InternalOrderKey, k))
  {
    var bd, id := LastWins(broker, BrokerOrderKey), LastWins(internals, InternalOrderKey);
    var at := OrdersAt(bd, id, ts);
    LastWinsIsDict(broker, BrokerOrderKey);
    LastWinsIsDict(internals, InternalOrderKey);
    AllKeysOnce(bd, id);
    hide LastWins, LastWith, IsDict, AllKeys, Flat, Upper, Lookup, OrdersAt, OrderReconciles;
    FlatEmpty(AllKeys(bd, id), at);
    if OrderReport(broker, internals, ts) == [] {
      forall k
        ensures OrderReconciles(LastWith(broker, BrokerOrderKey, k), LastWith(internals, InternalOrderKey, k))
      {
        OrderLookup(broker, internals, ts, k);
      }
    } else {
      var k :| k in AllKeys(bd, id) && at(k) != [];
      OrderLookup(broker, internals, ts, k);
    }
  }

  /** The same letters up to the case of ASCII letters. */
  ghost predicate SameIgnoringCase(s: string, t: string) {
    |s| == |t| &&
    forall n :: 0 <= n < |s| ==>
      s[n] == t[n] || ('a' <= s[n] <= 'z' && s[n] as int == t[n] as int + 32)
      || ('a' <= t[n] <= 'z' && t[n] as int == s[n] as int + 32)
  }

  lemma {:induction false} UpperIgnoresCase(s: string, t: string)
    ensures |Upper(s)| == |s|
    ensures Upper(s) == Upper(t) <==> SameIgnoringCase(s, t)
  {
    if s == "" {
      if t != "" {
        UpperIgnoresCase("", t[1..]);
        UpperLength(t);
      }
    } else if t == "" {
      UpperLength(s);
    } else {
      UpperIgnoresCase(s[1..], t[1..]);
      UpperLength(s);
      assert Upper(s)[1..] == Upper(s[1..]) && Upper(t)[1..] == Upper(t[1..]);
      assert Upper(s) == [Upper(s)[0]] + Upper(s)[1..] && Upper(t) == [Upper(t)[0]] + Upper(t)[1..];
      if SameIgnoringCase(s[1..], t[1..]) {
        assert forall n :: 1 <= n < |s| ==> s[n] == s[1..][n - 1] && t[n] == t[1..][n - 1];
      }
      if SameIgnoringCase(s, t) {
        assert forall n :: 0 <= n < |s| - 1 ==> s[1..][n] == s[n + 1] && t[1..][n] == t[n + 1];
      }
    }
  }

  lemma {:induction false} UpperLength(s: string)
    ensures |Upper(s)| == |s|
  {
    if s != "" {
      UpperLength(s[1..]);
    }
  }

  /** The one record owed for an order id: an unmatched listing, or two whose statuses differ beyond their case. */
  ghost predicate OrderRecordOwed(m: Mismatch, b: Option<BrokerOrder>, i: Option<InternalOrder>, ts: int) {
    match (b, i)
    case (None, None) => false
    case (None, Some(p)) => m == Mismatch(p.symbol, p.exchange, OrderMissing, Status(p.status), NotFound, ts)
    case (Some(q), None) => m == Mismatch(q.symbol, q.exchange, UnexpectedOrder, NotFound, Status(q.status), ts)
    case (Some(q), Some(p)) =>
      && !SameIgnoringCase(q.status, p.status)
      && m == Mismatch(p.symbol, p.exchange, OrderStatus, Status(p.status), Status(q.status), ts)
  }

  /** The ids a record of the order report is counted for are exactly those it is owed for by their last listings. */
  lemma {:induction false} OrderRecordsInFull(broker: seq<BrokerOrder>, internals: seq<InternalOrder>, ts: int,
      m: Mismatch, k: string, b: Option<BrokerOrder>, i: Option<InternalOrder>)
    requires IsLastListing(broker, BrokerOrderKey, k, b) && IsLastListing(internals, InternalOrderKey, k, i)
    ensures k in DiscrepantIds(broker, internals, ts, m) <==> OrderRecordOwed(m, b, i, ts)
    ensures OrderRecordOwed(m, b, i, ts) ==> m in OrderReport(broker, internals, ts)
  {
    LastWithIsLastListing(broker, BrokerOrderKey, k, b);
    LastWithIsLastListing(internals, InternalOrderKey, k, i);
    DiscrepantIdsAreAll(broker, internals, ts, m, k);
    OrderOccurrences(broker, internals, ts, m);
    if b.Some? && i.Some? {
      UpperIgnoresCase(b.value.status, i.value.status);
    }
    hide OrderReport, IsLastListing, LastWith, DiscrepantIds, Upper, SameIgnoringCase;
  }
}
