/** Paging through a contract's storage: one page at a time, each naming the key the next starts from. */
module Paging {
  import opened Wrappers

  /** A 256-bit key, ordered as the trie orders its paths. */
  type Key = nat

  datatype Rlp = Broken | Content(bytes: seq<nat>)

  /** A leaf: the hashed key, the stored bytes, and the key's preimage where the node knows it. */
  datatype Leaf = Leaf(key: Key, value: Rlp, preimage: Option<seq<nat>>)

  /** The leaves of a storage trie, in the order the iterator visits them. */
  type Trie = seq<Leaf>

  predicate Sorted(trie: Trie) {
    forall i, j | 0 <= i < j < |trie| :: trie[i].key < trie[j].key
  }

  /** Shorter input is padded on the left, longer input loses its first bytes. */
  function BytesToHash(bytes: seq<nat>): (hash: seq<nat>)
    ensures |hash| == 32
    ensures |bytes| <= 32 ==> bytes == hash[32 - |bytes|..] && forall i | 0 <= i < 32 - |bytes| :: hash[i] == 0
    ensures |bytes| > 32 ==> hash == bytes[|bytes| - 32..]
  {
    if |bytes| > 32 then bytes[|bytes| - 32..] else seq(32 - |bytes|, i => 0) + bytes
  }

  datatype Entry = Entry(key: Option<seq<nat>>, value: seq<nat>)

  type Storage = map<Key, Entry>

  datatype RangeResult = RangeError | RangeResult(storage: Storage, nextKey: Option<Key>)

  function EntryOf(leaf: Leaf): Entry
    requires leaf.value.Content?
  {
    Entry(if leaf.preimage.Some? then Some(BytesToHash(leaf.preimage.value)) else None, BytesToHash(leaf.value.bytes))
  }

  // ----- the iterator and the loop -----

  function FirstFrom(trie: Trie, start: Key, i: nat): (k: nat)
    requires i <= |trie|
    ensures i <= k <= |trie|
    decreases |trie| - i
  {
    if i == |trie| || trie[i].key >= start then i else FirstFrom(trie, start, i + 1)
  }

  /** The position of the first leaf at or after `start`. */
  function First(trie: Trie, start: Key): (i: nat)
    ensures i <= |trie|
  {
    FirstFrom(trie, start, 0)
  }

  lemma {:induction false} FirstSeparates(trie: Trie, start: Key, i: nat, j: nat)
    requires Sorted(trie) && i <= |trie| && j < |trie|
    ensures j >= i ==> (j < FirstFrom(trie, start, i) <==> trie[j].key < start)
    decreases |trie| - i
  {
    if i < |trie| && trie[i].key < start {
      FirstSeparates(trie, start, i + 1, j);
    } else if i < j {
      assert trie[i].key < trie[j].key;
    }
  }

  class Iterator {
    const trie: Trie
    /** The leaf after the current one. */
    var next: nat

    constructor (trie: Trie, start: Key)
      ensures this.trie == trie && next == First(trie, start)
    {
      this.trie := trie;
      next := First(trie, start);
    }

    method Next() returns (leaf: Option<Leaf>)
      requires next <= |trie|
      modifies this
      ensures old(next) < |trie| ==> leaf == Some(trie[old(next)]) && next == old(next) + 1
      ensures old(next) == |trie| ==> leaf == None && next == old(next)
    {
      if next == |trie| {
        return None;
      }
      leaf := Some(trie[next]);
      next := next + 1;
    }
  }

  predicate Readable(leaves: seq<Leaf>) {
    forall i | 0 <= i < |leaves| :: leaves[i].value.Content?
  }

  /** The storage a run of leaves shows. */
  function Shown(leaves: seq<Leaf>): Storage
    requires Readable(leaves)
  {
    if leaves == [] then map[] else Shown(leaves[..|leaves| - 1])[leaves[|leaves| - 1].key := EntryOf(leaves[|leaves| - 1])]
  }

  /** How many leaves a page starting at position `i` takes. */
  function Taken(trie: Trie, i: nat, maxResult: int): (n: nat)
    requires i <= |trie|
    ensures i + n <= |trie|
  {
    if maxResult <= 0 then 0 else if |trie| - i < maxResult then |trie| - i else maxResult
  }

  function Page(trie: Trie, start: Key, maxResult: int): RangeResult {
    var i := First(trie, start);
    var end := i + Taken(trie, i, maxResult);
    if !Readable(trie[i..end]) then RangeError
    else RangeResult(Shown(trie[i..end]), if end < |trie| then Some(trie[end].key) else None)
  }

  method StorageRangeAt(trie: Trie, start: Key, maxResult: int) returns (result: RangeResult)
    ensures result == Page(trie, start, maxResult)
  {
    var it := new Iterator(trie, start);
    var storage: Storage := map[];
    ghost var first := it.next;
    var i := 0;
    var more := true;
    while i < maxResult && more
      invariant first == First(trie, start) && it.trie == trie && it.next == first + i <= |trie|
      invariant 0 <= i && (i <= maxResult || i == 0)
      invariant !more ==> it.next == |trie|
      invariant Read(trie, first, i, storage)
      decreases |trie| - it.next, more
    {
      var leaf := it.Next();
      if leaf.None? {
        more := false;
      } else {
        if leaf.value.value.Broken? {
          BrokenPage(trie, start, i, maxResult);
          return RangeError;
        }
        ReadMore(trie, first, i, storage);
        storage := storage[leaf.value.key := EntryOf(leaf.value)];
        i := i + 1;
      }
    }
    WholePage(trie, start, i, storage, maxResult);
    var last := it.Next();
    result := RangeResult(storage, if last.Some? then Some(last.value.key) else None);
  }

  /** `storage` is what the `n` leaves from `first` show. */
  predicate Read(trie: Trie, first: nat, n: nat, storage: Storage) {
    first + n <= |trie| && Readable(trie[first..first + n]) && storage == Shown(trie[first..first + n])
  }

  lemma ReadMore(trie: Trie, first: nat, n: nat, storage: Storage)
    requires Read(trie, first, n, storage) && first + n < |trie| && trie[first + n].value.Content?
    ensures Read(trie, first, n + 1, storage[trie[first + n].key := EntryOf(trie[first + n])])
  {
    var page := trie[first..first + n + 1];
    assert page[..n] == trie[first..first + n] && page[n] == trie[first + n];
    forall j | 0 <= j < |page| ensures page[j].value.Content? {
      if j < n {
        assert page[j] == trie[first..first + n][j];
      }
    }
  }

  lemma BrokenPage(trie: Trie, start: Key, i: nat, maxResult: int)
    requires First(trie, start) + i < |trie| && i < maxResult && trie[First(trie, start) + i].value.Broken?
    ensures Page(trie, start, maxResult) == RangeError
  {
    var first := First(trie, start);
    assert trie[first..first + Taken(trie, first, maxResult)][i] == trie[first + i];
  }

  lemma WholePage(trie: Trie, start: Key, n: nat, storage: Storage, maxResult: int)
    requires Read(trie, First(trie, start), n, storage) && n == Taken(trie, First(trie, start), maxResult)
    ensures
      var end := First(trie, start) + n;
      Page(trie, start, maxResult) == RangeResult(storage, if end < |trie| then Some(trie[end].key) else None)
  {
  }

  // ----- following the pages -----

  /** The pages read by following nextKey; `complete` unless a page could not be read. */
  datatype Reading = Reading(pages: seq<Storage>, complete: bool)

  /** Seeking a key that is there finds it. */
  lemma FirstIs(trie: Trie, i: nat)
    requires Sorted(trie) && i < |trie|
    ensures First(trie, trie[i].key) == i
  {
    FirstSeparates(trie, trie[i].key, 0, i);
    FirstSeparates(trie, trie[i].key, 0, First(trie, trie[i].key));
  }

  function Follow(trie: Trie, start: Key, maxResult: int): Reading
    requires Sorted(trie) && maxResult >= 1
    decreases |trie| - First(trie, start)
  {
    match Page(trie, start, maxResult)
    case RangeError => Reading([], false)
    case RangeResult(storage, None) => Reading([storage], true)
    case RangeResult(storage, Some(next)) =>
      FirstIs(trie, First(trie, start) + maxResult);
      var rest := Follow(trie, next, maxResult);
      Reading([storage] + rest.pages, rest.complete)
  }

  /** The entries with key at or after `start`. */
  function Remaining(trie: Trie, start: Key): (leaves: seq<Leaf>) {
    trie[First(trie, start)..]
  }

  function Union(pages: seq<Storage>): Storage {
    if pages == [] then map[] else pages[0] + Union(pages[1..])
  }

  ghost predicate Disjoint(pages: seq<Storage>) {
    forall i, j | 0 <= i < j < |pages| :: pages[i].Keys !! pages[j].Keys
  }

  ghost predicate HasKey(leaves: seq<Leaf>, k: Key) {
    exists i :: 0 <= i < |leaves| && leaves[i].key == k
  }

  lemma HasKeyExtends(before: seq<Leaf>, last: Leaf, k: Key)
    ensures HasKey(before + [last], k) <==> HasKey(before, k) || last.key == k
  {
    var leaves := before + [last];
    assert leaves[|before|] == last;
    if HasKey(before, k) {
      var i :| 0 <= i < |before| && before[i].key == k;
      assert leaves[i].key == k;
    }
  }

  lemma {:induction false} ShownKey(leaves: seq<Leaf>, k: Key)
    requires Readable(leaves)
    ensures k in Shown(leaves) <==> HasKey(leaves, k)
  {
    if leaves != [] {
      var before, last := leaves[..|leaves| - 1], leaves[|leaves| - 1];
      ShownKey(before, k);
      HasKeyExtends(before, last, k);
      assert leaves == before + [last];
    }
  }

  lemma {:induction false} ShownAt(leaves: seq<Leaf>, i: nat)
    requires Sorted(leaves) && Readable(leaves) && i < |leaves|
    ensures leaves[i].key in Shown(leaves) && Shown(leaves)[leaves[i].key] == EntryOf(leaves[i])
  {
    var n := |leaves| - 1;
    if i < n {
      assert leaves[i].key < leaves[n].key;
      ShownAt(leaves[..n], i);
    }
  }

  /** The whole of what there is to read is exactly the trie's entries from `start` on. */
  lemma RemainingIs(trie: Trie, start: Key)
    requires Sorted(trie) && Readable(Remaining(trie, start))
    ensures
      var storage := Shown(Remaining(trie, start));
      && (forall i | 0 <= i < |trie| && trie[i].key >= start ::
            trie[i].value.Content? && trie[i].key in storage && storage[trie[i].key] == EntryOf(trie[i]))
      && (forall k | k in storage :: k >= start && HasKey(trie, k))
  {
    var leaves := Remaining(trie, start);
    RestIsAfter(trie, start);
    var first := First(trie, start);
    forall i | 0 <= i < |trie| && trie[i].key >= start
      ensures trie[i].value.Content? && trie[i].key in Shown(leaves) && Shown(leaves)[trie[i].key] == EntryOf(trie[i])
    {
      FirstSeparates(trie, start, 0, i);
      assert leaves[i - first] == trie[i];
      ShownAt(leaves, i - first);
    }
    forall k | k in Shown(leaves) ensures k >= start && HasKey(trie, k) {
      ShownKey(leaves, k);
      var i :| 0 <= i < |leaves| && leaves[i].key == k;
      assert leaves[i] == trie[first + i];
    }
  }

  lemma {:induction false} ShownConcat(a: seq<Leaf>, b: seq<Leaf>)
    requires Readable(a) && Readable(b)
    ensures Readable(a + b) && Shown(a + b) == Shown(a) + Shown(b)
  {
    if b == [] {
      assert a + b == a;
    } else {
      ShownConcat(a, b[..|b| - 1]);
      assert (a + b)[..|a + b| - 1] == a + b[..|b| - 1];
    }
  }

  lemma {:induction false} ShownSize(leaves: seq<Leaf>)
    requires Sorted(leaves) && Readable(leaves)
    ensures |Shown(leaves)| == |leaves|
  {
    if leaves != [] {
      var n := |leaves| - 1;
      ShownSize(leaves[..n]);
      ShownKey(leaves[..n], leaves[n].key);
      assert leaves[n].key !in Shown(leaves[..n]);
      assert Shown(leaves).Keys == Shown(leaves[..n]).Keys + {leaves[n].key};
    }
  }

  lemma ReadableConcat(a: seq<Leaf>, b: seq<Leaf>)
    ensures Readable(a + b) <==> Readable(a) && Readable(b)
  {
    if Readable(a + b) {
      forall i | 0 <= i < |a| ensures a[i].value.Content? {
        assert (a + b)[i] == a[i];
      }
      forall i | 0 <= i < |b| ensures b[i].value.Content? {
        assert (a + b)[|a| + i] == b[i];
      }
    }
  }

  lemma RestStartsAt(trie: Trie, end: nat)
    requires Sorted(trie) && end < |trie|
    ensures Remaining(trie, trie[end].key) == trie[end..]
  {
    FirstIs(trie, end);
  }

  /** What remains is the page taken and what remains after it. */
  lemma PageSplits(trie: Trie, start: Key, end: nat)
    requires First(trie, start) <= end < |trie|
    ensures Remaining(trie, start) == trie[First(trie, start)..end] + trie[end..]
  {
  }

  lemma PageKeys(trie: Trie, start: Key, end: nat)
    requires Sorted(trie) && First(trie, start) <= end < |trie|
    ensures Between(trie[First(trie, start)..end], start, trie[end].key)
  {
    var first := First(trie, start);
    var page := trie[first..end];
    forall i | 0 <= i < |page| ensures start <= page[i].key < trie[end].key {
      assert page[i] == trie[first + i];
      FirstSeparates(trie, start, 0, first + i);
    }
  }

  predicate Between(leaves: seq<Leaf>, low: Key, high: Key) {
    forall i | 0 <= i < |leaves| :: low <= leaves[i].key < high
  }

  lemma SortedSlice(trie: Trie, low: nat, high: nat)
    requires Sorted(trie) && low <= high <= |trie|
    ensures Sorted(trie[low..high])
  {
    var slice := trie[low..high];
    forall i, j | 0 <= i < j < |slice| ensures slice[i].key < slice[j].key {
      assert slice[i] == trie[low + i] && slice[j] == trie[low + j];
    }
  }

  lemma FullPage(trie: Trie, start: Key, end: nat, maxResult: int)
    requires Sorted(trie) && maxResult >= 1 && end == First(trie, start) + maxResult < |trie|
    ensures
      var page := trie[First(trie, start)..end];
      && Sorted(page)
      && Page(trie, start, maxResult) == if Readable(page) then RangeResult(Shown(page), Some(trie[end].key)) else RangeError
  {
    var first := First(trie, start);
    SortedSlice(trie, first, end);
    assert first + Taken(trie, first, maxResult) == end;
  }

  lemma LastPage(trie: Trie, start: Key, maxResult: int)
    requires Sorted(trie) && maxResult >= 1 && First(trie, start) + maxResult >= |trie|
    ensures
      var rest := Remaining(trie, start);
      && Page(trie, start, maxResult) == (if Readable(rest) then RangeResult(Shown(rest), None) else RangeError)
      && |rest| <= maxResult
  {
    var first := First(trie, start);
    assert first + Taken(trie, first, maxResult) == |trie|;
    assert trie[first..|trie|] == trie[first..];
  }

  lemma RestIsAfter(trie: Trie, start: Key)
    requires Sorted(trie)
    ensures Sorted(Remaining(trie, start)) && forall i | 0 <= i < |Remaining(trie, start)| :: start <= Remaining(trie, start)[i].key
  {
    var first := First(trie, start);
    var rest := Remaining(trie, start);
    SortedSlice(trie, first, |trie|);
    assert trie[first..|trie|] == rest;
    forall i | 0 <= i < |rest| ensures start <= rest[i].key {
      assert rest[i] == trie[first + i];
      FirstSeparates(trie, start, 0, first + i);
    }
  }

  lemma UnionOfOne(page: Storage)
    ensures Union([page]) == page
  {
    assert [page][1..] == [];
    assert Union([page][1..]) == map[];
  }

  ghost predicate AllFrom(pages: seq<Storage>, start: Key) {
    forall i, k | 0 <= i < |pages| && k in pages[i] :: k >= start
  }

  ghost predicate AllSmall(pages: seq<Storage>, maxResult: int) {
    forall i | 0 <= i < |pages| :: |pages[i]| <= maxResult
  }

  lemma PagesExtend(page: Storage, pages: seq<Storage>, start: Key, next: Key, maxResult: int)
    requires Disjoint(pages) && AllFrom(pages, next) && AllSmall(pages, maxResult)
    requires |page| <= maxResult && start <= next && forall k | k in page :: start <= k < next
    ensures Disjoint([page] + pages) && AllFrom([page] + pages, start) && AllSmall([page] + pages, maxResult)
    ensures Union([page] + pages) == page + Union(pages)
  {
    assert ([page] + pages)[1..] == pages;
  }

  /** The pages are those of `leaves`: none overlap, none is too long, and if all can be read, all are there. */
  ghost predicate Covers(reading: Reading, leaves: seq<Leaf>, start: Key, maxResult: int) {
    && Disjoint(reading.pages) && AllFrom(reading.pages, start) && AllSmall(reading.pages, maxResult)
    && (reading.complete <==> Readable(leaves))
    && (reading.complete ==> Union(reading.pages) == Shown(leaves))
  }

  lemma CoversLast(leaves: seq<Leaf>, start: Key, maxResult: int)
    requires Sorted(leaves) && Readable(leaves) && |leaves| <= maxResult
    requires forall i | 0 <= i < |leaves| :: start <= leaves[i].key
    ensures Covers(Reading([Shown(leaves)], true), leaves, start, maxResult)
  {
    forall k | k in Shown(leaves) ensures k >= start {
      ShownKey(leaves, k);
    }
    ShownSize(leaves);
    UnionOfOne(Shown(leaves));
  }

  lemma CoversMore(page: seq<Leaf>, rest: seq<Leaf>, reading: Reading, start: Key, next: Key, maxResult: int)
    requires Sorted(page) && Between(page, start, next) && 1 <= |page| <= maxResult
    requires Covers(reading, rest, next, maxResult)
    ensures
      Covers(if Readable(page) then Reading([Shown(page)] + reading.pages, reading.complete) else Reading([], false),
             page + rest, start, maxResult)
  {
    ReadableConcat(page, rest);
    if Readable(page) {
      forall k | k in Shown(page) ensures start <= k < next {
        ShownKey(page, k);
      }
      ShownSize(page);
      assert start <= page[0].key < next;
      PagesExtend(Shown(page), reading.pages, start, next, maxResult);
      if Readable(rest) {
        ShownConcat(page, rest);
      }
    }
  }

  lemma FollowFull(trie: Trie, start: Key, end: nat, maxResult: int)
    requires Sorted(trie) && maxResult >= 1 && end == First(trie, start) + maxResult < |trie|
    ensures
      var page, later := trie[First(trie, start)..end], Follow(trie, trie[end].key, maxResult);
      && Sorted(page)
      && Follow(trie, start, maxResult)
         == if Readable(page) then Reading([Shown(page)] + later.pages, later.complete) else Reading([], false)
  {
    FullPage(trie, start, end, maxResult);
    var page := trie[First(trie, start)..end];
    if Readable(page) {
      assert Page(trie, start, maxResult).nextKey == Some(trie[end].key);
    }
  }

  /**
   Following nextKey from anywhere ends; the pages never overlap, none is longer than asked for, and,
   exactly when every entry from there on can be read, together they are all of those entries.
   */
  lemma {:induction false} PagingIsComplete(trie: Trie, start: Key, maxResult: int)
    requires Sorted(trie) && maxResult >= 1
    ensures Covers(Follow(trie, start, maxResult), Remaining(trie, start), start, maxResult)
    decreases |trie| - First(trie, start)
  {
    var first := First(trie, start);
    var end := first + maxResult;
    if end >= |trie| {
      LastPage(trie, start, maxResult);
      if Readable(Remaining(trie, start)) {
        RestIsAfter(trie, start);
        CoversLast(Remaining(trie, start), start, maxResult);
      }
    } else {
      var next := trie[end].key;
      FirstIs(trie, end);
      PagingIsComplete(trie, next, maxResult);
      RestStartsAt(trie, end);
      FollowFull(trie, start, end, maxResult);
      PageSplits(trie, start, end);
      PageKeys(trie, start, end);
      CoversMore(trie[first..end], trie[end..], Follow(trie, next, maxResult), start, next, maxResult);
    }
  }

  /** Progress needs a page size of at least one: otherwise every page is empty and names its own start. */
  lemma NextKeyMovesOnIff(trie: Trie, start: Key, maxResult: int)
    requires Sorted(trie) && Page(trie, start, maxResult).RangeResult? && Page(trie, start, maxResult).nextKey.Some?
    ensures
      var next := Page(trie, start, maxResult).nextKey.value;
      && (First(trie, next) > First(trie, start) <==> maxResult >= 1)
      && (maxResult < 1 ==> Page(trie, start, maxResult).storage == map[]
                            && Page(trie, next, maxResult) == Page(trie, start, maxResult))
  {
    var i := First(trie, start);
    FirstIs(trie, i + Taken(trie, i, maxResult));
  }
}
