/** The byte-budgeted LRU the three caches of engine/src/cache share: a map of
    entries, a list of its keys by recency, and the bytes they take. */
module LruCache {
  import opened Wrappers

  // ----- the list the cache stands for, most recent first -------------------

  datatype Item<V> = Item(key: string, value: V, bytes: nat)

  function Sum<V>(s: seq<Item<V>>): nat {
    if s == [] then 0 else s[0].bytes + Sum(s[1..])
  }

  function Without<V>(s: seq<Item<V>>, key: string): seq<Item<V>> {
    if s == [] then [] else if s[0].key == key then Without(s[1..], key) else [s[0]] + Without(s[1..], key)
  }

  function WithoutPrefix<V>(s: seq<Item<V>>, prefix: string): seq<Item<V>> {
    if s == [] then [] else if prefix <= s[0].key then WithoutPrefix(s[1..], prefix) else [s[0]] + WithoutPrefix(s[1..], prefix)
  }

  function Find<V>(s: seq<Item<V>>, key: string): Option<Item<V>> {
    if s == [] then None else if s[0].key == key then Some(s[0]) else Find(s[1..], key)
  }

  // The longest prefix within the budget, or one item.
  function Keep<V>(s: seq<Item<V>>, budget: nat): seq<Item<V>> {
    if |s| <= 1 || Sum(s) <= budget then s else Keep(s[..|s| - 1], budget)
  }

  function Stored<V>(s: seq<Item<V>>, item: Item<V>, budget: nat): seq<Item<V>> {
    Keep([item] + Without(s, item.key), budget)
  }

  function Touched<V>(s: seq<Item<V>>, key: string): seq<Item<V>> {
    match Find(s, key)
    case None => s
    case Some(item) => [item] + Without(s, key)
  }

  // Every key once.
  predicate Distinct<V>(s: seq<Item<V>>) {
    s == [] || (Find(s[1..], s[0].key) == None && Distinct(s[1..]))
  }

  lemma {:induction false} SumMore<V>(s: seq<Item<V>>, n: nat)
    requires n < |s|
    ensures Sum(s[..n + 1]) == Sum(s[..n]) + s[n].bytes
  {
    if n == 0 {
      assert s[..1] == [s[0]] && s[..0] == [];
    } else {
      assert s[..n + 1][1..] == s[1..][..n] && s[..n][1..] == s[1..][..n - 1];
      SumMore(s[1..], n - 1);
    }
  }

  lemma {:induction false} SumOfFewer<V>(s: seq<Item<V>>, n: nat)
    requires n <= |s|
    ensures Sum(s[..n]) <= Sum(s)
    decreases |s| - n
  {
    if n == |s| {
      assert s[..n] == s;
    } else {
      SumMore(s, n);
      SumOfFewer(s, n + 1);
    }
  }

  // Keep is the longest prefix that fits, however the rest may be cut.
  lemma {:induction false} KeepIsLongest<V>(s: seq<Item<V>>, budget: nat)
    ensures var k := |Keep(s, budget)|;
      && k <= |s| && Keep(s, budget) == s[..k]
      && (k <= 1 || Sum(s[..k]) <= budget)
      && (k == 0 <==> s == [])
      && forall n :: k < n <= |s| ==> Sum(s[..n]) > budget
  {
    if |s| <= 1 || Sum(s) <= budget {
      assert s[..|s|] == s;
    } else {
      var less := s[..|s| - 1];
      KeepIsLongest(less, budget);
      var k := |Keep(s, budget)|;
      assert less[..k] == s[..k];
      forall n | k < n <= |s| ensures Sum(s[..n]) > budget {
        if n == |s| { assert s[..n] == s; } else { assert less[..n] == s[..n]; }
      }
    }
  }

  lemma {:induction false} WithoutFind<V>(s: seq<Item<V>>, key: string, k: string)
    ensures Find(Without(s, key), k) == if k == key then None else Find(s, k)
  {
    if s != [] {
      WithoutFind(s[1..], key, k);
      assert s[0].key != key ==> Without(s, key)[1..] == Without(s[1..], key);
    }
  }

  lemma {:induction false} WithoutDistinct<V>(s: seq<Item<V>>, key: string)
    requires Distinct(s)
    ensures Distinct(Without(s, key))
  {
    if s != [] {
      WithoutDistinct(s[1..], key);
      WithoutFind(s[1..], key, s[0].key);
      assert s[0].key != key ==> Without(s, key)[1..] == Without(s[1..], key);
    }
  }

  lemma {:induction false} WithoutAbsent<V>(s: seq<Item<V>>, key: string)
    requires Find(s, key) == None
    ensures Without(s, key) == s
  {
    if s != [] {
      WithoutAbsent(s[1..], key);
    }
  }

  lemma {:induction false} WithoutSum<V>(s: seq<Item<V>>, key: string)
    requires Distinct(s)
    ensures Sum(Without(s, key)) == Sum(s) - match Find(s, key) case None => 0 case Some(item) => item.bytes
  {
    if s != [] {
      if s[0].key == key {
        WithoutAbsent(s[1..], key);
      } else {
        WithoutSum(s[1..], key);
        assert Without(s, key)[1..] == Without(s[1..], key);
      }
    }
  }

  lemma {:induction false} PrefixFind<V>(s: seq<Item<V>>, n: nat, k: string)
    requires n <= |s|
    ensures Find(s[..n], k) == None || Find(s[..n], k) == Find(s, k)
  {
    if n > 0 {
      assert s[..n][1..] == s[1..][..n - 1];
      PrefixFind(s[1..], n - 1, k);
    }
  }

  lemma {:induction false} PrefixDistinct<V>(s: seq<Item<V>>, n: nat)
    requires n <= |s| && Distinct(s)
    ensures Distinct(s[..n])
  {
    if n > 0 {
      assert s[..n][1..] == s[1..][..n - 1];
      PrefixDistinct(s[1..], n - 1);
      PrefixFind(s[1..], n - 1, s[0].key);
    }
  }

  function WithoutKeys<V>(s: seq<Item<V>>, gone: set<string>): seq<Item<V>> {
    if s == [] then [] else if s[0].key in gone then WithoutKeys(s[1..], gone) else [s[0]] + WithoutKeys(s[1..], gone)
  }

  lemma {:induction false} WithoutOneMore<V>(s: seq<Item<V>>, gone: set<string>, key: string)
    ensures Without(WithoutKeys(s, gone), key) == WithoutKeys(s, gone + {key}) && WithoutKeys(s, {}) == s
  {
    if s != [] {
      WithoutOneMore(s[1..], gone, key);
      assert s[0].key !in gone ==> WithoutKeys(s, gone)[1..] == WithoutKeys(s[1..], gone);
    }
  }

  lemma {:induction false} WithoutThePrefix<V>(s: seq<Item<V>>, gone: set<string>, prefix: string)
    requires forall i :: i in s ==> (i.key in gone <==> prefix <= i.key)
    ensures WithoutKeys(s, gone) == WithoutPrefix(s, prefix)
  {
    if s != [] {
      assert s == [s[0]] + s[1..];
      WithoutThePrefix(s[1..], gone, prefix);
    }
  }

  // ----- the order of the map's keys ----------------------------------------

  predicate Less(a: string, b: string) {
    b != "" && (a == "" || a[0] < b[0] || (a[0] == b[0] && Less(a[1..], b[1..])))
  }

  // Past the first key that lacks the prefix, none has it.
  lemma {:induction false} PastPrefix(prefix: string, x: string, y: string)
    requires !Less(x, prefix) && !(prefix <= x) && Less(x, y)
    ensures !(prefix <= y)
  {
    if x != "" && prefix != "" && x[0] == prefix[0] && y != "" && y[0] == x[0] {
      assert prefix == [prefix[0]] + prefix[1..] && x == [x[0]] + x[1..] && y == [y[0]] + y[1..];
      PastPrefix(prefix[1..], x[1..], y[1..]);
    }
  }

  lemma {:induction false} BeforePrefix(prefix: string, x: string)
    requires prefix <= x
    ensures !Less(x, prefix)
  {
    if prefix != "" {
      BeforePrefix(prefix[1..], x[1..]);
    }
  }

  lemma {:induction false} NotBelow(prefix: string, a: string, b: string)
    requires prefix <= a && Less(a, b)
    ensures !Less(b, prefix)
  {
    if prefix != "" && a[0] == b[0] {
      NotBelow(prefix[1..], a[1..], b[1..]);
    }
  }

  ghost predicate InMapOrder(order: seq<string>, keys: set<string>) {
    && (forall k :: k in keys <==> k in order)
    && forall i, j :: 0 <= i < j < |order| ==> Less(order[i], order[j]) && order[i] != order[j]
  }

  // ----- the cache itself ---------------------------------------------------

  datatype Entry<V> = Entry(value: V, bytes: nat)

  predicate AllIn<V>(lru: seq<string>, entries: map<string, Entry<V>>) {
    forall k :: k in lru ==> k in entries
  }

  function ItemsOf<V>(lru: seq<string>, entries: map<string, Entry<V>>): seq<Item<V>>
    requires AllIn(lru, entries)
  {
    if lru == [] then [] else
      [Item(lru[0], entries[lru[0]].value, entries[lru[0]].bytes)] + ItemsOf(lru[1..], entries)
  }

  function KeysWithout(lru: seq<string>, key: string): seq<string> {
    if lru == [] then [] else if lru[0] == key then KeysWithout(lru[1..], key) else [lru[0]] + KeysWithout(lru[1..], key)
  }

  lemma {:induction false} KeysWithoutHas(lru: seq<string>, key: string, k: string)
    ensures k in KeysWithout(lru, key) <==> k in lru && k != key
  {
    if lru != [] {
      KeysWithoutHas(lru[1..], key, k);
      assert lru == [lru[0]] + lru[1..];
    }
  }

  // The items of other keys do not change when one key's entry does.
  lemma {:induction false} ItemsWithout<V>(lru: seq<string>, entries: map<string, Entry<V>>, next: map<string, Entry<V>>, key: string)
    requires AllIn(lru, entries) && forall k :: k in lru && k != key ==> k in next && next[k] == entries[k]
    ensures AllIn(KeysWithout(lru, key), next) && ItemsOf(KeysWithout(lru, key), next) == Without(ItemsOf(lru, entries), key)
  {
    forall k ensures k in KeysWithout(lru, key) <==> k in lru && k != key { KeysWithoutHas(lru, key, k); }
    if lru != [] {
      ItemsWithout(lru[1..], entries, next, key);
      assert ItemsOf(lru, entries)[1..] == ItemsOf(lru[1..], entries);
      assert lru[0] != key ==> KeysWithout(lru, key)[1..] == KeysWithout(lru[1..], key);
    }
  }

  lemma {:induction false} ItemsFind<V>(lru: seq<string>, entries: map<string, Entry<V>>, key: string)
    requires AllIn(lru, entries)
    ensures Find(ItemsOf(lru, entries), key) == if key in lru then Some(Item(key, entries[key].value, entries[key].bytes)) else None
  {
    if lru != [] {
      ItemsFind(lru[1..], entries, key);
      assert lru == [lru[0]] + lru[1..];
      assert ItemsOf(lru, entries)[1..] == ItemsOf(lru[1..], entries);
    }
  }

  lemma {:induction false} ItemsPrefix<V>(lru: seq<string>, entries: map<string, Entry<V>>, next: map<string, Entry<V>>, n: nat)
    requires n <= |lru| && AllIn(lru, entries) && forall k :: k in lru[..n] ==> k in next && next[k] == entries[k]
    ensures AllIn(lru[..n], next) && |ItemsOf(lru, entries)| == |lru| && ItemsOf(lru[..n], next) == ItemsOf(lru, entries)[..n]
  {
    if lru != [] {
      var all := ItemsOf(lru, entries);
      assert all[1..] == ItemsOf(lru[1..], entries);
      if n > 0 {
        assert lru[..n][1..] == lru[1..][..n - 1];
        ItemsPrefix(lru[1..], entries, next, n - 1);
        assert all[..n] == [all[0]] + all[1..][..n - 1];
      } else {
        ItemsPrefix(lru[1..], entries, next, 0);
      }
    }
  }

  lemma {:induction false} ItemsSame<V>(lru: seq<string>, entries: map<string, Entry<V>>, next: map<string, Entry<V>>)
    requires AllIn(lru, entries) && forall k :: k in lru ==> k in next && next[k] == entries[k]
    ensures AllIn(lru, next) && ItemsOf(lru, next) == ItemsOf(lru, entries)
  {
    ItemsPrefix(lru, entries, next, |lru|);
    assert lru[..|lru|] == lru;
    ItemsPrefix(lru, entries, entries, |lru|);
  }

  lemma {:induction false} ItemsAt<V>(lru: seq<string>, entries: map<string, Entry<V>>, i: nat)
    requires AllIn(lru, entries) && i < |lru|
    ensures i < |ItemsOf(lru, entries)|
    ensures ItemsOf(lru, entries)[i] == Item(lru[i], entries[lru[i]].value, entries[lru[i]].bytes)
  {
    if i > 0 {
      ItemsAt(lru[1..], entries, i - 1);
    }
  }

  lemma {:induction false} LastOnce<V>(lru: seq<string>, entries: map<string, Entry<V>>)
    requires AllIn(lru, entries) && Distinct(ItemsOf(lru, entries)) && lru != []
    ensures lru[|lru| - 1] !in lru[..|lru| - 1]
  {
    if |lru| > 1 {
      FirstOnce(lru, entries);
      LastOnce(lru[1..], entries);
      hide *;
      var rest := lru[1..];
      assert lru[..|lru| - 1] == [lru[0]] + rest[..|rest| - 1];
      assert lru[|lru| - 1] == rest[|rest| - 1] && rest[|rest| - 1] in rest;
    }
  }

  lemma FirstOnce<V>(lru: seq<string>, entries: map<string, Entry<V>>)
    requires AllIn(lru, entries) && Distinct(ItemsOf(lru, entries)) && lru != []
    ensures lru[0] !in lru[1..] && AllIn(lru[1..], entries) && Distinct(ItemsOf(lru[1..], entries))
  {
    ItemsFind(lru[1..], entries, lru[0]);
    assert ItemsOf(lru, entries)[1..] == ItemsOf(lru[1..], entries);
  }

  // Dropping the key used longest ago drops the last item.
  lemma LastGone<V>(lru: seq<string>, entries: map<string, Entry<V>>)
    requires AllIn(lru, entries) && Distinct(ItemsOf(lru, entries)) && lru != [] && forall k :: k in entries ==> k in lru
    ensures var last, rest := lru[|lru| - 1], lru[..|lru| - 1];
      var was, next := ItemsOf(lru, entries), entries - {last};
      && |was| == |lru| && AllIn(rest, next) && ItemsOf(rest, next) == was[..|was| - 1] && Distinct(ItemsOf(rest, next))
      && Sum(was) == Sum(was[..|was| - 1]) + entries[last].bytes
      && forall k :: k in next ==> k in rest
  {
    var last, rest := lru[|lru| - 1], lru[..|lru| - 1];
    var was := ItemsOf(lru, entries);
    LastOnce(lru, entries);
    ItemsPrefix(lru, entries, entries - {last}, |rest|);
    SumMore(was, |rest|);
    ItemsAt(lru, entries, |rest|);
    PrefixDistinct(was, |rest|);
    hide ItemsOf, Distinct, Sum;
    assert was[..|rest| + 1] == was;
    assert lru == rest + [last];
  }

  lemma {:induction false} ItemsHold<V>(lru: seq<string>, entries: map<string, Entry<V>>, item: Item<V>)
    requires AllIn(lru, entries) && item in ItemsOf(lru, entries)
    ensures item.key in entries
  {
    if lru != [] && item != ItemsOf(lru, entries)[0] {
      assert ItemsOf(lru, entries) == [ItemsOf(lru, entries)[0]] + ItemsOf(lru[1..], entries);
      ItemsHold(lru[1..], entries, item);
    }
  }

  lemma GonePrefix(order: seq<string>, keys: set<string>, prefix: string, start: nat, end: nat)
    requires InMapOrder(order, keys) && start <= end <= |order|
    requires forall j :: 0 <= j < start ==> Less(order[j], prefix)
    requires start < |order| ==> !Less(order[start], prefix)
    requires forall j :: start <= j < end ==> prefix <= order[j]
    requires end < |order| ==> !(prefix <= order[end])
    ensures forall k :: k in keys ==> (k in order[start..end] <==> prefix <= k)
  {
    forall k | k in keys ensures k in order[start..end] <==> prefix <= k {
      var j :| 0 <= j < |order| && order[j] == k;
      if j < start {
        if prefix <= k { BeforePrefix(prefix, k); }
      } else if end <= j {
        if start < end { NotBelow(prefix, order[start], order[end]); }
        if end < j { PastPrefix(prefix, order[end], k); }
      }
    }
  }

  class ByteLru<V> {
    const budget: nat
    var entries: map<string, Entry<V>>
    var lru: seq<string>  // most recent first
    var used: nat

    // The list names every key once, and the bytes are exactly theirs.
    ghost predicate Valid()
      reads this
    {
      && AllIn(lru, entries) && (forall k :: k in entries ==> k in lru)
      && Distinct(ItemsOf(lru, entries)) && used == Sum(ItemsOf(lru, entries))
    }

    ghost function Contents(): seq<Item<V>>
      requires Valid()
      reads this
    {
      ItemsOf(lru, entries)
    }

    constructor (budget: nat)
      ensures Valid() && Contents() == [] && this.budget == budget
    {
      this.budget := budget;
      entries, lru, used := map[], [], 0;
    }

    method EraseLocked(key: string)
      requires Valid()
      modifies this
      ensures Valid() && Contents() == Without(old(Contents()), key)
    {
      ghost var was := Contents();
      ItemsFind(lru, entries, key);
      if key !in entries {
        WithoutAbsent(was, key);
        return;
      }
      WithoutSum(was, key);
      WithoutDistinct(was, key);
      ItemsWithout(lru, entries, entries - {key}, key);
      forall k ensures k in KeysWithout(lru, key) <==> k in lru && k != key { KeysWithoutHas(lru, key, k); }
      used := used - entries[key].bytes;
      lru := KeysWithout(lru, key);
      entries := entries - {key};
    }

    method EvictLocked()
      requires Valid()
      modifies this
      ensures Valid() && Contents() == Keep(old(Contents()), budget)
    {
      while used > budget && |lru| > 1
        invariant Valid() && Keep(Contents(), budget) == Keep(old(Contents()), budget)
        decreases |lru|
      {
        var last := lru[|lru| - 1];
        LastGone(lru, entries);
        used := used - entries[last].bytes;
        entries := entries - {last};
        lru := lru[..|lru| - 1];
      }
      ItemsPrefix(lru, entries, entries, |lru|);
    }

    method Put(key: string, value: V, bytes: nat)
      requires Valid()
      modifies this
      ensures Valid() && Contents() == Stored(old(Contents()), Item(key, value, bytes), budget)
    {
      EraseLocked(key);
      ghost var was := Contents();
      ItemsFind(lru, entries, key);
      WithoutFind(old(Contents()), key, key);
      ItemsSame(lru, entries, entries[key := Entry(value, bytes)]);
      lru := [key] + lru;
      entries := entries[key := Entry(value, bytes)];
      used := used + bytes;
      assert lru[1..] == lru[1..];
      assert ItemsOf(lru, entries) == [Item(key, value, bytes)] + was;
      EvictLocked();
    }

    method Get(key: string) returns (value: Option<V>)
      requires Valid()
      modifies this`lru
      ensures Valid() && Contents() == Touched(old(Contents()), key)
      ensures value == match Find(old(Contents()), key) case None => None case Some(item) => Some(item.value)
    {
      ItemsFind(lru, entries, key);
      if key !in entries {
        return None;
      }
      ghost var was := Contents();
      ItemsWithout(lru, entries, entries, key);
      WithoutSum(was, key);
      WithoutDistinct(was, key);
      WithoutFind(was, key, key);
      forall k ensures k in KeysWithout(lru, key) <==> k in lru && k != key { KeysWithoutHas(lru, key, k); }
      lru := [key] + KeysWithout(lru, key);
      assert lru[1..] == KeysWithout(old(lru), key);
      return Some(entries[key].value);
    }

    // Walks the map's keys from the first not below the prefix to the first
    // without it.
    method DropPrefix(prefix: string, order: seq<string>)
      requires Valid() && InMapOrder(order, entries.Keys)
      modifies this
      ensures Valid() && Contents() == WithoutPrefix(old(Contents()), prefix)
    {
      hide InMapOrder, Less, Sum, Distinct, WithoutPrefix;
      ghost var was := Contents();
      ghost var gone: set<string> := {};
      var i := 0;
      while i < |order| && Less(order[i], prefix)
        invariant 0 <= i <= |order|
        invariant forall j :: 0 <= j < i ==> Less(order[j], prefix)
      {
        i := i + 1;
      }
      ghost var start := i;
      WithoutOneMore(was, gone, "");
      hide WithoutKeys;
      while i < |order| && prefix <= order[i]
        invariant start <= i <= |order|
        invariant Valid() && Contents() == WithoutKeys(was, gone)
        invariant forall k :: k in gone <==> k in order[start..i]
        invariant forall j :: start <= j < i ==> prefix <= order[j]
      {
        WithoutOneMore(was, gone, order[i]);
        EraseLocked(order[i]);
        gone := gone + {order[i]};
        i := i + 1;
      }
      GonePrefix(order, old(entries.Keys), prefix, start, i);
      forall item | item in was ensures item.key in gone <==> prefix <= item.key {
        ItemsHold(old(lru), old(entries), item);
      }
      WithoutThePrefix(was, gone, prefix);
    }
  }

  // ----- the document overlay's use of it -----------------------------------

  datatype Doc = Doc(contents: string, version: int)

  const MAX_DOC_BYTES: nat := 8 * 1024 * 1024
  const DOC_OVERLAY_BUDGET: nat := 64 * 1024 * 1024

  function DocKey(repoId: string, path: string): string {
    repoId + ['\0'] + path
  }

  // A buffer over the cap is not stored, and the path has none from then on.
  method UpdateDoc(docs: ByteLru<Doc>, maxDocBytes: nat, repoId: string, path: string, contents: string, version: int)
    requires docs.Valid()
    modifies docs
    ensures docs.Valid()
    ensures docs.Contents() ==
      if |contents| > maxDocBytes then Without(old(docs.Contents()), DocKey(repoId, path))
      else Stored(old(docs.Contents()), Item(DocKey(repoId, path), Doc(contents, version), |DocKey(repoId, path)| + |contents|), docs.budget)
  {
    var k := DocKey(repoId, path);
    if |contents| > maxDocBytes {
      docs.EraseLocked(k);
      return;
    }
    docs.Put(k, Doc(contents, version), |k| + |contents|);
  }

  // Closing a repository takes its documents and no other's, and its graph
  // plans, as long as no repository id holds the separator.
  lemma ClosesOneRepo(separator: char, repoId: string, other: string, tail: string)
    requires separator !in repoId && separator !in other
    ensures repoId + [separator] <= other + [separator] + tail <==> other == repoId
  {
    var prefix, key := repoId + [separator], other + [separator] + tail;
    assert |repoId| < |other| ==> key[|repoId|] == other[|repoId|];
    assert |other| < |repoId| ==> prefix[|other|] == repoId[|other|];
    assert key[|other|] == separator && prefix[|repoId|] == separator;
    assert prefix <= key ==> key[|repoId|] == prefix[|repoId|];
    assert key[..|other|] == other && prefix[..|repoId|] == repoId;
    assert prefix <= key ==> key[..|repoId|] == prefix[..|repoId|];
    assert other == repoId ==> key == prefix + tail;
  }

  // ----- whole runs ---------------------------------------------------------

  datatype Op<V> = Store(item: Item<V>) | Look(key: string) | Forget(key: string) | Close(prefix: string)

  function Apply<V>(s: seq<Item<V>>, op: Op<V>, budget: nat): seq<Item<V>> {
    match op
    case Store(item) => Stored(s, item, budget)
    case Look(key) => Touched(s, key)
    case Forget(key) => Without(s, key)
    case Close(prefix) => WithoutPrefix(s, prefix)
  }

  function Play<V>(ops: seq<Op<V>>, budget: nat): seq<Item<V>> {
    if ops == [] then [] else Apply(Play(ops[..|ops| - 1], budget), ops[|ops| - 1], budget)
  }

  // What was last stored for a key and not forgotten since.
  function Latest<V>(ops: seq<Op<V>>, key: string): Option<Item<V>> {
    if ops == [] then None else
      var before := Latest(ops[..|ops| - 1], key);
      match ops[|ops| - 1]
      case Store(item) => if item.key == key then Some(item) else before
      case Look(_) => before
      case Forget(k) => if k == key then None else before
      case Close(prefix) => if prefix <= key then None else before
  }

  // When a key was last stored or looked up.
  function LastUse<V>(ops: seq<Op<V>>, key: string): int {
    if ops == [] then -1 else
      var op := ops[|ops| - 1];
      if (op.Store? && op.item.key == key) || (op.Look? && op.key == key) then |ops| - 1 else LastUse(ops[..|ops| - 1], key)
  }

  lemma {:induction false} LastUseBelow<V>(ops: seq<Op<V>>, key: string)
    ensures LastUse(ops, key) < |ops|
  {
    if ops != [] {
      LastUseBelow(ops[..|ops| - 1], key);
    }
  }

  // More recently used first.
  ghost predicate ByUse<V>(s: seq<Item<V>>, ops: seq<Op<V>>) {
    s == [] || ((forall k :: Find(s[1..], k).Some? ==> LastUse(ops, k) < LastUse(ops, s[0].key)) && ByUse(s[1..], ops))
  }

  lemma {:induction false} ByUseWithout<V>(s: seq<Item<V>>, ops: seq<Op<V>>, key: string)
    requires ByUse(s, ops)
    ensures ByUse(Without(s, key), ops)
  {
    if s != [] {
      ByUseWithout(s[1..], ops, key);
      if s[0].key != key {
        assert Without(s, key)[1..] == Without(s[1..], key);
        forall k | Find(Without(s[1..], key), k).Some? ensures LastUse(ops, k) < LastUse(ops, s[0].key) {
          WithoutFind(s[1..], key, k);
        }
      }
    }
  }

  lemma {:induction false} ByUseWithoutPrefix<V>(s: seq<Item<V>>, ops: seq<Op<V>>, prefix: string)
    requires ByUse(s, ops)
    ensures ByUse(WithoutPrefix(s, prefix), ops)
  {
    if s != [] {
      ByUseWithoutPrefix(s[1..], ops, prefix);
      if !(prefix <= s[0].key) {
        assert WithoutPrefix(s, prefix)[1..] == WithoutPrefix(s[1..], prefix);
        forall k | Find(WithoutPrefix(s[1..], prefix), k).Some? ensures LastUse(ops, k) < LastUse(ops, s[0].key) {
          WithoutPrefixFind(s[1..], prefix, k);
        }
      }
    }
  }

  lemma {:induction false} WithoutPrefixFind<V>(s: seq<Item<V>>, prefix: string, k: string)
    ensures Find(WithoutPrefix(s, prefix), k) == if prefix <= k then None else Find(s, k)
  {
    if s != [] {
      WithoutPrefixFind(s[1..], prefix, k);
      assert !(prefix <= s[0].key) ==> WithoutPrefix(s, prefix)[1..] == WithoutPrefix(s[1..], prefix);
    }
  }

  lemma {:induction false} WithoutPrefixDistinct<V>(s: seq<Item<V>>, prefix: string)
    requires Distinct(s)
    ensures Distinct(WithoutPrefix(s, prefix)) && Sum(WithoutPrefix(s, prefix)) <= Sum(s)
    ensures |WithoutPrefix(s, prefix)| <= |s|
  {
    if s != [] {
      WithoutPrefixDistinct(s[1..], prefix);
      WithoutPrefixFind(s[1..], prefix, s[0].key);
      assert !(prefix <= s[0].key) ==> WithoutPrefix(s, prefix)[1..] == WithoutPrefix(s[1..], prefix);
    }
  }

  lemma {:induction false} ByUsePrefix<V>(s: seq<Item<V>>, ops: seq<Op<V>>, n: nat)
    requires ByUse(s, ops) && n <= |s|
    ensures ByUse(s[..n], ops)
  {
    if n > 0 {
      assert s[..n][1..] == s[1..][..n - 1];
      ByUsePrefix(s[1..], ops, n - 1);
      forall k | Find(s[1..][..n - 1], k).Some? ensures LastUse(ops, k) < LastUse(ops, s[0].key) {
        PrefixFind(s[1..], n - 1, k);
      }
    }
  }

  // An op that does not use the keys of the list leaves it ordered.
  lemma {:induction false} ByUseLater<V>(s: seq<Item<V>>, ops: seq<Op<V>>, more: seq<Op<V>>)
    requires ByUse(s, ops) && forall k :: Find(s, k).Some? ==> LastUse(more, k) == LastUse(ops, k)
    ensures ByUse(s, more)
  {
    if s != [] {
      forall k | Find(s[1..], k).Some? ensures Find(s, k).Some? {}
      assert Find(s, s[0].key).Some?;
      ByUseLater(s[1..], ops, more);
    }
  }

  lemma {:induction false} LengthWithout<V>(s: seq<Item<V>>, key: string)
    requires Distinct(s)
    ensures |Without(s, key)| == |s| - if Find(s, key).Some? then 1 else 0
  {
    if s != [] {
      if s[0].key == key {
        WithoutAbsent(s[1..], key);
      } else {
        LengthWithout(s[1..], key);
      }
    }
  }

  ghost predicate RunHolds<V>(ops: seq<Op<V>>, s: seq<Item<V>>, budget: nat) {
    && Distinct(s)
    && (forall k :: Find(s, k).Some? ==> Find(s, k) == Latest(ops, k))
    && (|s| <= 1 || Sum(s) <= budget)
    && ByUse(s, ops)
  }

  // After any run the list has every key once, gives the latest value stored
  // or nothing, keeps to the budget, and is ordered by use.
  lemma {:induction false} EveryRun<V>(ops: seq<Op<V>>, budget: nat)
    ensures RunHolds(ops, Play(ops, budget), budget)
  {
    if ops != [] {
      EveryRun(ops[..|ops| - 1], budget);
      hide RunHolds;
      match ops[|ops| - 1] {
        case Store(item) => RunStores(ops, Play(ops[..|ops| - 1], budget), budget);
        case Look(key) => RunLooks(ops, Play(ops[..|ops| - 1], budget), budget);
        case Forget(key) => RunForgets(ops, Play(ops[..|ops| - 1], budget), budget);
        case Close(prefix) => RunForgets(ops, Play(ops[..|ops| - 1], budget), budget);
      }
    }
  }

  // The list but for one key, with that key used last put in front.
  lemma UsedInFront<V>(ops: seq<Op<V>>, s: seq<Item<V>>, item: Item<V>)
    requires ops != [] && Distinct(s) && ByUse(s, ops[..|ops| - 1])
    requires var op := ops[|ops| - 1]; (op.Store? && op.item.key == item.key) || (op.Look? && op.key == item.key)
    ensures var next := [item] + Without(s, item.key);
      && Distinct(next) && ByUse(next, ops)
      && forall k :: Find(next, k) == if k == item.key then Some(item) else Find(s, k)
  {
    var rest := Without(s, item.key);
    var next := [item] + rest;
    assert next[1..] == rest;
    WithoutDistinct(s, item.key);
    ByUseWithout(s, ops[..|ops| - 1], item.key);
    forall k ensures Find(rest, k) == if k == item.key then None else Find(s, k) { WithoutFind(s, item.key, k); }
    ByUseLater(rest, ops[..|ops| - 1], ops);
    forall k | Find(rest, k).Some? ensures LastUse(ops, k) < LastUse(ops, item.key) {
      LastUseBelow(ops[..|ops| - 1], k);
    }
  }

  lemma RunStores<V>(ops: seq<Op<V>>, s: seq<Item<V>>, budget: nat)
    requires ops != [] && ops[|ops| - 1].Store? && RunHolds(ops[..|ops| - 1], s, budget)
    ensures RunHolds(ops, Stored(s, ops[|ops| - 1].item, budget), budget)
  {
    var item := ops[|ops| - 1].item;
    var all := [item] + Without(s, item.key);
    UsedInFront(ops, s, item);
    KeepIsLongest(all, budget);
    var n := |Keep(all, budget)|;
    PrefixDistinct(all, n);
    ByUsePrefix(all, ops, n);
    forall k | Find(all[..n], k).Some? ensures Find(all[..n], k) == Latest(ops, k) {
      PrefixFind(all, n, k);
    }
  }

  lemma RunLooks<V>(ops: seq<Op<V>>, s: seq<Item<V>>, budget: nat)
    requires ops != [] && ops[|ops| - 1].Look? && RunHolds(ops[..|ops| - 1], s, budget)
    ensures RunHolds(ops, Touched(s, ops[|ops| - 1].key), budget)
  {
    var key := ops[|ops| - 1].key;
    if Find(s, key).Some? {
      FindKey(s, key);
      UsedInFront(ops, s, Find(s, key).value);
      WithoutSum(s, key);
      LengthWithout(s, key);
    } else {
      ByUseLater(s, ops[..|ops| - 1], ops);
    }
  }

  lemma {:induction false} FindKey<V>(s: seq<Item<V>>, key: string)
    ensures Find(s, key).Some? ==> Find(s, key).value.key == key
  {
    if s != [] && s[0].key != key {
      FindKey(s[1..], key);
    }
  }

  lemma RunForgets<V>(ops: seq<Op<V>>, s: seq<Item<V>>, budget: nat)
    requires ops != [] && (ops[|ops| - 1].Forget? || ops[|ops| - 1].Close?) && RunHolds(ops[..|ops| - 1], s, budget)
    ensures RunHolds(ops, Apply(s, ops[|ops| - 1], budget), budget)
  {
    var op, init := ops[|ops| - 1], ops[..|ops| - 1];
    if op.Forget? {
      WithoutDistinct(s, op.key);
      WithoutSum(s, op.key);
      LengthWithout(s, op.key);
      ByUseWithout(s, init, op.key);
      forall k ensures Find(Without(s, op.key), k) == if k == op.key then None else Find(s, k) { WithoutFind(s, op.key, k); }
      ByUseLater(Without(s, op.key), init, ops);
    } else {
      WithoutPrefixDistinct(s, op.prefix);
      ByUseWithoutPrefix(s, init, op.prefix);
      forall k ensures Find(WithoutPrefix(s, op.prefix), k) == if op.prefix <= k then None else Find(s, k) {
        WithoutPrefixFind(s, op.prefix, k);
      }
      ByUseLater(WithoutPrefix(s, op.prefix), init, ops);
    }
  }

  // ----- what each op keeps -------------------------------------------------

  // The bytes of the items used at some time or later, but for one key's.
  function Since<V>(s: seq<Item<V>>, ops: seq<Op<V>>, time: int, key: string): nat {
    if s == [] then 0 else
      (if s[0].key != key && LastUse(ops, s[0].key) >= time then s[0].bytes else 0) + Since(s[1..], ops, time, key)
  }

  lemma {:induction false} NoneSince<V>(s: seq<Item<V>>, ops: seq<Op<V>>, time: int, key: string)
    requires forall k :: Find(s, k).Some? ==> LastUse(ops, k) < time
    ensures Since(s, ops, time, key) == 0
  {
    if s != [] {
      assert Find(s, s[0].key).Some?;
      forall k | Find(s[1..], k).Some? ensures LastUse(ops, k) < time {
        assert Find(s, k).Some?;
      }
      NoneSince(s[1..], ops, time, key);
    }
  }

  // Where a key is in a list but for another key, and what the items up to
  // there take.
  lemma {:induction false} PlaceOf<V>(s: seq<Item<V>>, ops: seq<Op<V>>, k: string, key: string) returns (p: nat)
    requires ByUse(s, ops) && Distinct(s) && Find(s, k).Some? && k != key
    ensures var rest := Without(s, key);
      p < |rest| && rest[p].key == k && Sum(rest[..p + 1]) == Since(s, ops, LastUse(ops, k), key)
  {
    var rest := Without(s, key);
    if s[0].key == k {
      p := 0;
      assert rest[..1][1..] == [];
      NoneSince(s[1..], ops, LastUse(ops, k), key);
    } else if s[0].key == key {
      p := PlaceOf(s[1..], ops, k, key);
    } else {
      p := PlaceOf(s[1..], ops, k, key);
      assert rest == [s[0]] + Without(s[1..], key);
      assert rest[..p + 2][1..] == Without(s[1..], key)[..p + 1];
      p := p + 1;
    }
  }

  lemma {:induction false} FindAt<V>(s: seq<Item<V>>, p: nat, n: nat)
    requires Distinct(s) && p < |s| && n <= |s|
    ensures Find(s[..n], s[p].key) == if p < n then Some(s[p]) else None
    ensures Find(s, s[p].key) == Some(s[p])
  {
    if p == 0 {
      if n > 0 { assert s[..n][0] == s[0]; }
    } else {
      FindAt(s[1..], p - 1, if n > 0 then n - 1 else 0);
      assert Find(s[1..], s[p].key).Some?;
      if n > 0 { assert s[..n][1..] == s[1..][..n - 1]; }
    }
  }

  lemma Stores<V>(ops: seq<Op<V>>, s: seq<Item<V>>, item: Item<V>, budget: nat, k: string)
    requires RunHolds(ops, s, budget)
    ensures var next := Stored(s, item, budget);
      Find(next, k) ==
        if k == item.key then Some(item)
        else if item.bytes + Since(s, ops, LastUse(ops, k), item.key) <= budget then Find(s, k)
        else None
  {
    var rest := Without(s, item.key);
    var all := [item] + rest;
    var n := |Keep(all, budget)|;
    KeepIsLongest(all, budget);
    WithoutFind(s, item.key, k);
    assert all[..n][1..] == rest[..n - 1];
    if k != item.key {
      PrefixFind(rest, n - 1, k);
      if Find(s, k).Some? {
        var p := PlaceOf(s, ops, k, item.key);
        WithoutDistinct(s, item.key);
        FindAt(rest, p, n - 1);
        assert all[..p + 2][1..] == rest[..p + 1];
        if p + 2 <= n {
          SumOfFewer(all[..n], p + 2);
          assert all[..n][..p + 2] == all[..p + 2];
        }
      }
    }
  }

  // What each op leaves of every key: looking keeps all, forgetting and closing
  // take theirs alone, and storing keeps exactly the item and those before it
  // that, with all used since, fit the budget beside it.
  lemma Leaves<V>(ops: seq<Op<V>>, op: Op<V>, budget: nat, k: string)
    ensures var before, after := Find(Play(ops, budget), k), Find(Play(ops + [op], budget), k);
      after == if op.Look? then before
               else if op.Forget? then if k == op.key then None else before
               else if op.Close? then if op.prefix <= k then None else before
               else if k == op.item.key then Some(op.item)
               else if op.item.bytes + Since(Play(ops, budget), ops, LastUse(ops, k), op.item.key) <= budget then before
               else None
  {
    var s := Play(ops, budget);
    assert (ops + [op])[..|ops|] == ops && (ops + [op])[|ops|] == op;
    EveryRun(ops, budget);
    match op {
      case Look(key) =>
        FindKey(s, key);
        WithoutFind(s, key, k);
        if Find(s, key).Some? { assert Touched(s, key)[1..] == Without(s, key); }
      case Forget(key) => WithoutFind(s, key, k);
      case Close(prefix) => WithoutPrefixFind(s, prefix, k);
      case Store(item) => Stores(ops, s, item, budget, k);
    }
  }
}
