/** The progress data of WatchState (script.js:76-219) as values: an
    insertion-ordered map from project id to entry, the operations the store
    performs on it, and the shapes it is saved and loaded in. */
module Progress {
  import opened Wrappers
  import opened Catalog
  import opened Digits

  datatype MediaKind = Image | Video

  /** An attached memory: `{url, type, caption}` (models/user.js:7-12). */
  datatype Memory = Memory(url: string, kind: MediaKind, caption: string)

  /** A progress entry `{count, watchedWith, memories}`. `watchedWith` is `None`
      when the object has no such property, as for the entries toggle and the
      legacy cache decode create (script.js:111, 164). */
  datatype Entry = Entry(count: int, watchedWith: Option<seq<string>>, memories: seq<Memory>)

  /** The entry toggle creates (script.js:164). */
  const FreshEntry: Entry := Entry(1, None, [])

  predicate NoDuplicates(s: seq<string>) {
    forall i, j :: 0 <= i < j < |s| ==> s[i] != s[j]
  }

  /** A JavaScript `Map` from id to entry: the entries and their keys in
      insertion order. */
  datatype ProgressMap = ProgressMap(entries: map<string, Entry>, order: seq<string>) {
    predicate Valid() {
      NoDuplicates(order) &&
      (forall k :: k in entries ==> k in order) && (forall k :: k in order ==> k in entries)
    }

    /** The watched set: `isWatched(id)` is `data.has(id)` (script.js:145). */
    function Keys(): set<string> {
      entries.Keys
    }
  }

  const Empty: ProgressMap := ProgressMap(map[], [])

  /** Dropping the first key keeps the rest free of duplicates and without it. */
  lemma TailNoDuplicates(s: seq<string>)
    requires NoDuplicates(s) && s != []
    ensures NoDuplicates(s[1..]) && s[0] !in s[1..]
  {
    forall i, j | 0 <= i < j < |s[1..]| ensures s[1..][i] != s[1..][j] {
      assert s[1..][i] == s[i + 1] && s[1..][j] == s[j + 1];
    }
    forall i | 0 <= i < |s[1..]| ensures s[1..][i] != s[0] {
      assert s[1..][i] == s[i + 1];
    }
  }

  /** `s` without `k`. */
  function Remove(s: seq<string>, k: string): (r: seq<string>)
    ensures forall x :: x in r <==> x in s && x != k
    ensures NoDuplicates(s) ==> NoDuplicates(r)
    ensures k !in s ==> r == s
  {
    if s == [] then []
    else
      var rest := Remove(s[1..], k);
      assert forall x :: x in s[1..] ==> x in s;
      assert NoDuplicates(s) ==> NoDuplicates(s[1..]) && s[0] !in s[1..] by {
        if NoDuplicates(s) {
          TailNoDuplicates(s);
        }
      }
      if s[0] == k then rest else [s[0]] + rest
  }

  lemma RemoveHead(s: seq<string>, k: string)
    requires s != []
    ensures Remove(s, k) == if s[0] == k then Remove(s[1..], k) else [s[0]] + Remove(s[1..], k)
  {
  }

  /** Removing a key cuts it out at its position: the keys before and after it stay,
      in their order. */
  lemma {:induction false} RemoveKeepsOrder(s: seq<string>, k: string, i: nat)
    requires NoDuplicates(s) && i < |s| && s[i] == k
    ensures Remove(s, k) == s[..i] + s[i + 1..]
  {
    TailNoDuplicates(s);
    var tail := s[1..];
    RemoveHead(s, k);
    if i == 0 {
      assert s[..0] + tail == tail;
    } else {
      assert s[0] != k by {
        assert s[0] != s[i];
      }
      assert tail[i - 1] == k;
      RemoveKeepsOrder(tail, k, i - 1);
      var before, after := tail[..i - 1], tail[i..];
      assert s[..i] == [s[0]] + before;
      assert s[i + 1..] == after;
      assert [s[0]] + (before + after) == ([s[0]] + before) + after;
    }
  }

  /** `Map.prototype.set`: an existing key keeps its place, a new key goes last. */
  function Put(m: ProgressMap, k: string, v: Entry): (r: ProgressMap)
    ensures m.Valid() ==> r.Valid()
  {
    ProgressMap(m.entries[k := v], if k in m.entries then m.order else m.order + [k])
  }

  /** `Map.prototype.delete`: the other keys keep their entries and their order. */
  function Delete(m: ProgressMap, k: string): (r: ProgressMap)
    ensures m.Valid() ==> r.Valid()
    ensures r.entries == m.entries - {k} && r.order == Remove(m.order, k)
  {
    ProgressMap(m.entries - {k}, Remove(m.order, k))
  }

  /** Every key other than `k` is present in both maps or in neither, with the same entry. */
  ghost predicate SameExcept(m: ProgressMap, r: ProgressMap, k: string) {
    forall x :: x != k ==>
      (x in r.entries <==> x in m.entries) && (x in m.entries ==> r.entries[x] == m.entries[x])
  }

  // ---------------------------------------------------------------------
  // Queries (script.js:145-149, 188-194, 218)

  /** `data.get(id)?.count || 0`. */
  function GetCount(m: ProgressMap, id: string): int {
    if id in m.entries then m.entries[id].count else 0
  }

  /** `data.get(id)?.watchedWith || []`. */
  function GetWatchedWith(m: ProgressMap, id: string): seq<string> {
    if id in m.entries then m.entries[id].watchedWith.GetOr([]) else []
  }

  /** `data.get(id)?.memories || []`. */
  function GetMemories(m: ProgressMap, id: string): seq<Memory> {
    if id in m.entries then m.entries[id].memories else []
  }

  /** getLastWatchedId: every entry is a truthy object, so this is the most recently
      inserted key, or the start node when the map is empty. */
  function LastWatchedId(m: ProgressMap): string {
    if |m.order| > 0 then m.order[|m.order| - 1] else StartNodeId
  }

  lemma LastWatchedIdIsNewestKey(m: ProgressMap)
    requires m.Valid()
    ensures m.entries == map[] ==> LastWatchedId(m) == StartNodeId
    ensures m.entries != map[] ==> LastWatchedId(m) in m.entries
  {
    if m.entries != map[] {
      var k :| k in m.entries;
      assert k in m.order;
    }
    if |m.order| > 0 {
      assert m.order[|m.order| - 1] in m.entries;
    }
  }

  /** An id that has just been inserted is the one centering falls back to. */
  lemma PutNewKeyBecomesLast(m: ProgressMap, k: string, v: Entry)
    requires k !in m.entries
    ensures LastWatchedId(Put(m, k, v)) == k
  {
  }

  // ---------------------------------------------------------------------
  // Mutators (script.js:152-185)

  /** toggle (script.js:160-168): a watched id loses its entry entirely; an
      unwatched one gets a fresh entry. */
  function Toggled(m: ProgressMap, id: string): ProgressMap {
    if id in m.entries then Delete(m, id) else Put(m, id, FreshEntry)
  }

  lemma ToggleSpec(m: ProgressMap, id: string)
    requires m.Valid()
    ensures var r := Toggled(m, id);
      r.Valid() && SameExcept(m, r, id) &&
      (id in r.entries <==> id !in m.entries) &&
      (id in r.entries ==> r.entries[id] == FreshEntry && LastWatchedId(r) == id) &&
      (id !in m.entries ==> r.order == m.order + [id]) &&
      (id in m.entries ==> exists i :: 0 <= i < |m.order| && m.order[i] == id && r.order == m.order[..i] + m.order[i + 1..])
  {
    if id in m.entries {
      var i :| 0 <= i < |m.order| && m.order[i] == id;
      RemoveKeepsOrder(m.order, id, i);
    }
  }

  /** Untoggling the newest key makes the key inserted before it the one centering
      falls back to, or the start node when it was the only key. */
  lemma UntoggleNewest(m: ProgressMap)
    requires m.Valid() && |m.order| > 0
    ensures var r := Toggled(m, LastWatchedId(m));
      LastWatchedId(r) == (if |m.order| > 1 then m.order[|m.order| - 2] else StartNodeId)
  {
    var n := |m.order|;
    var k := m.order[n - 1];
    var init := m.order[..n - 1];
    assert m.order == init + [k];
    assert k in m.entries;
    assert k !in init;
    RemoveLast(init, k);
    assert Toggled(m, k).order == init;
  }

  /** Toggling an unwatched id twice gives back exactly the map it started from;
      toggling a watched id twice resets its entry (count 1, no memories) and
      moves it to the end of the insertion order. */
  lemma ToggleTwice(m: ProgressMap, id: string)
    requires m.Valid()
    ensures id !in m.entries ==> Toggled(Toggled(m, id), id) == m
    ensures id in m.entries ==>
      var r := Toggled(Toggled(m, id), id);
      r.Valid() && r.entries == m.entries[id := FreshEntry] && LastWatchedId(r) == id
  {
    if id !in m.entries {
      ToggleTwiceUnwatched(m, id);
    } else {
      ToggleTwiceWatched(m, id);
    }
  }

  lemma ToggleTwiceUnwatched(m: ProgressMap, id: string)
    requires m.Valid() && id !in m.entries
    ensures Toggled(Toggled(m, id), id) == m
  {
    var p := Put(m, id, FreshEntry);
    assert p.order == m.order + [id];
    assert id !in m.order;
    RemoveLast(m.order, id);
    assert m.entries[id := FreshEntry] - {id} == m.entries;
    assert Toggled(p, id) == Delete(p, id);
  }

  lemma ToggleTwiceWatched(m: ProgressMap, id: string)
    requires m.Valid() && id in m.entries
    ensures var r := Toggled(Toggled(m, id), id);
      r.Valid() && r.entries == m.entries[id := FreshEntry] && LastWatchedId(r) == id
  {
    var d := Delete(m, id);
    assert id !in d.entries;
    var r := Put(d, id, FreshEntry);
    assert Toggled(d, id) == r;
    assert r.order == d.order + [id];
    assert r.entries == m.entries[id := FreshEntry];
  }

  lemma {:induction false} RemoveLast(s: seq<string>, k: string)
    requires k !in s
    ensures Remove(s + [k], k) == s
  {
    if s != [] {
      assert (s + [k])[1..] == s[1..] + [k];
      RemoveLast(s[1..], k);
    }
  }

  /** watchAgain (script.js:152-158): one more viewing of an existing entry. */
  function WatchedAgain(m: ProgressMap, id: string): ProgressMap {
    if id in m.entries then
      var e := m.entries[id];
      Put(m, id, e.(count := e.count + 1))
    else m
  }

  /** watchAgain raises the count by exactly one when the id is watched, is a no-op
      otherwise, and never changes the key set or its order. */
  lemma WatchAgainSpec(m: ProgressMap, id: string)
    requires m.Valid()
    ensures var r := WatchedAgain(m, id);
      r.Valid() && r.Keys() == m.Keys() && r.order == m.order && SameExcept(m, r, id) &&
      (id in m.entries ==>
        GetCount(r, id) == GetCount(m, id) + 1 &&
        r.entries[id].watchedWith == m.entries[id].watchedWith &&
        r.entries[id].memories == m.entries[id].memories) &&
      (id !in m.entries ==> r == m && GetCount(r, id) == 0)
  {
  }

  // ---------------------------------------------------------------------
  // Server payload (script.js:95-99, 123-128)

  /** One element of `watchedProjects`, as the server stores and returns it.
      `None` stands for a missing or null property. */
  datatype ServerEntry = ServerEntry(
    projectId: string, count: int, watchedWith: Option<seq<string>>, memories: Option<seq<Memory>>)

  /** The entry that load builds from a server element (script.js:95-99). */
  function FromServer(e: ServerEntry): Entry {
    Entry(e.count, Some(e.watchedWith.GetOr([])), e.memories.GetOr([]))
  }

  /** The element that save sends for an entry (script.js:123-128). */
  function ToServer(id: string, e: Entry): ServerEntry {
    ServerEntry(id, e.count, Some(e.watchedWith.GetOr([])), Some(e.memories))
  }

  /** The save payload: every entry, in insertion order. */
  function EncodeServer(m: ProgressMap): (r: seq<ServerEntry>)
    requires m.Valid()
    ensures |r| == |m.order|
    ensures forall i :: 0 <= i < |r| ==> r[i] == ToServer(m.order[i], m.entries[m.order[i]])
  {
    seq(|m.order|, i requires 0 <= i < |m.order| => ToServer(m.order[i], m.entries[m.order[i]]))
  }

  /** `watchedProjects.forEach(entry => this.data.set(...))` on top of `m`. */
  function DecodeServer(m: ProgressMap, es: seq<ServerEntry>): (r: ProgressMap)
    ensures m.Valid() ==> r.Valid()
  {
    if es == [] then m
    else
      var last := es[|es| - 1];
      Put(DecodeServer(m, es[..|es| - 1]), last.projectId, FromServer(last))
  }

  /** What a missing `watchedWith` becomes after a trip through the server. */
  function Normalized(e: Entry): Entry {
    e.(watchedWith := Some(e.watchedWith.GetOr([])))
  }

  function NormalizedMap(m: ProgressMap): ProgressMap {
    ProgressMap(map k | k in m.entries :: Normalized(m.entries[k]), m.order)
  }

  /** Loading what save sent rebuilds the map: same keys, same order, same entries,
      except that a missing `watchedWith` comes back as `[]`. */
  lemma ServerRoundTrip(m: ProgressMap)
    requires m.Valid()
    ensures DecodeServer(Empty, EncodeServer(m)) == NormalizedMap(m)
  {
    var n := NormalizedMap(m);
    assert n.Valid();
    DecodeServerReplays(m, |m.order|);
    assert EncodeServer(m)[..|m.order|] == EncodeServer(m);
    assert m.order[..|m.order|] == m.order;
    ReplayAll(n);
  }

  lemma {:induction false} DecodeServerReplays(m: ProgressMap, n: nat)
    requires m.Valid() && n <= |m.order|
    ensures DecodeServer(Empty, EncodeServer(m)[..n]) ==
      Replayed(Empty, m.order[..n], NormalizedMap(m).entries)
  {
    if n > 0 {
      var es := EncodeServer(m)[..n];
      assert es[..n - 1] == EncodeServer(m)[..n - 1];
      assert m.order[..n][..n - 1] == m.order[..n - 1];
      DecodeServerReplays(m, n - 1);
    }
  }

  // ---------------------------------------------------------------------
  // Replaying a map into an empty one: the local cache and the peer-view restore

  /** `ks.forEach(k => data.set(k, src[k]))` on top of `m`. */
  function Replayed(m: ProgressMap, ks: seq<string>, src: map<string, Entry>): (r: ProgressMap)
    requires forall i :: 0 <= i < |ks| ==> ks[i] in src
  {
    if ks == [] then m
    else
      var k := ks[|ks| - 1];
      Put(Replayed(m, ks[..|ks| - 1], src), k, src[k])
  }

  /** The first `n` keys of `m` and their entries. */
  function Prefix(m: ProgressMap, n: nat): ProgressMap
    requires m.Valid() && n <= |m.order|
  {
    ProgressMap(map k | k in m.order[..n] :: m.entries[k], m.order[..n])
  }

  /** Setting every key of a map, in its order, into an empty map rebuilds it. */
  lemma {:induction false} ReplayRebuilds(m: ProgressMap, n: nat)
    requires m.Valid() && n <= |m.order|
    ensures Replayed(Empty, m.order[..n], m.entries) == Prefix(m, n)
  {
    if n > 0 {
      var ks := m.order[..n];
      assert ks[..n - 1] == m.order[..n - 1];
      assert ks[n - 1] == m.order[n - 1];
      ReplayRebuilds(m, n - 1);
      PrefixStep(m, n);
    }
  }

  /** One more key of the prefix is one more `set`, of a key not yet present. */
  lemma PrefixStep(m: ProgressMap, n: nat)
    requires m.Valid() && 0 < n <= |m.order|
    ensures Prefix(m, n) == Put(Prefix(m, n - 1), m.order[n - 1], m.entries[m.order[n - 1]])
  {
    var k := m.order[n - 1];
    var pre := Prefix(m, n - 1);
    var init := m.order[..n - 1];
    assert k !in init by {
      forall j | 0 <= j < n - 1 ensures init[j] != k {
        assert init[j] == m.order[j];
      }
    }
    assert m.order[..n] == init + [k];
    assert forall x :: x in m.order[..n] <==> x in init || x == k;
    assert Prefix(m, n).entries == pre.entries[k := m.entries[k]];
  }

  lemma ReplayAll(m: ProgressMap)
    requires m.Valid()
    ensures Replayed(Empty, m.order, m.entries) == m
  {
    ReplayRebuilds(m, |m.order|);
    assert m.order[..|m.order|] == m.order;
    assert Prefix(m, |m.order|) == m;
  }

  /** A value of the local cache object (script.js:108-114): a legacy boolean or an
      entry object. */
  datatype CacheValue = Flag(b: bool) | Record(e: Entry)

  // ---------------------------------------------------------------------
  // The property order of a JavaScript object (script.js:108, 138-139)

  /** A key that a JavaScript object orders as an array index: a decimal numeral
      without leading zeros whose value is below 2^32 - 1. */
  predicate IsArrayIndex(k: string) {
    |k| > 0 && AllDigits(k) && (k[0] != '0' || |k| == 1) && DigitsValue(k) < 0xFFFF_FFFF
  }

  predicate AllIndices(t: seq<string>) {
    forall i :: 0 <= i < |t| ==> IsArrayIndex(t[i])
  }

  predicate Ascending(t: seq<string>)
    requires AllIndices(t)
  {
    forall i, j :: 0 <= i < j < |t| ==> DigitsValue(t[i]) <= DigitsValue(t[j])
  }

  /** The keys of `s` that are (`index`) or are not (`!index`) array indices, in order. */
  function KeysWhere(s: seq<string>, index: bool): (r: seq<string>)
    ensures forall x :: x in r <==> x in s && IsArrayIndex(x) == index
    ensures index ==> AllIndices(r)
  {
    if s == [] then []
    else
      var rest := KeysWhere(s[1..], index);
      assert forall x :: x in s[1..] ==> x in s;
      assert s == [s[0]] + s[1..];
      if IsArrayIndex(s[0]) == index then [s[0]] + rest else rest
  }

  lemma {:induction false} KeysWhereNoDuplicates(s: seq<string>, index: bool)
    requires NoDuplicates(s)
    ensures NoDuplicates(KeysWhere(s, index))
  {
    if s != [] {
      TailNoDuplicates(s);
      KeysWhereNoDuplicates(s[1..], index);
    }
  }

  /** When every key is on one side, that side is all of `s` and the other is empty. */
  lemma {:induction false} KeysWhereUniform(s: seq<string>, index: bool)
    requires forall i :: 0 <= i < |s| ==> IsArrayIndex(s[i]) == index
    ensures KeysWhere(s, index) == s && KeysWhere(s, !index) == []
  {
    if s != [] {
      var tail := s[1..];
      assert forall i :: 0 <= i < |tail| ==> IsArrayIndex(tail[i]) == index by {
        forall i | 0 <= i < |tail| ensures IsArrayIndex(tail[i]) == index {
          assert tail[i] == s[i + 1];
        }
      }
      KeysWhereUniform(tail, index);
      assert IsArrayIndex(s[0]) == index;
      assert KeysWhere(s, index) == [s[0]] + KeysWhere(tail, index);
      assert KeysWhere(s, !index) == KeysWhere(tail, !index);
      assert s == [s[0]] + tail;
    }
  }

  /** Every key of `s` is in exactly one of the two lists. */
  lemma {:induction false} KeysWhereSplit(s: seq<string>)
    ensures |KeysWhere(s, true)| + |KeysWhere(s, false)| == |s|
  {
    if s != [] {
      KeysWhereSplit(s[1..]);
    }
  }

  /** Inserts an array index into an ascending list of them, before the first
      larger one. */
  function InsertIndex(x: string, t: seq<string>): (r: seq<string>)
    requires IsArrayIndex(x) && AllIndices(t)
    ensures |r| == |t| + 1 && AllIndices(r)
    ensures forall y :: y in r <==> y == x || y in t
  {
    if t == [] || DigitsValue(x) <= DigitsValue(t[0]) then [x] + t
    else
      assert forall y :: y in t[1..] ==> y in t;
      assert t == [t[0]] + t[1..];
      [t[0]] + InsertIndex(x, t[1..])
  }

  lemma InsertAscendingFront(x: string, t: seq<string>)
    requires IsArrayIndex(x) && AllIndices(t) && Ascending(t)
    requires t == [] || DigitsValue(x) <= DigitsValue(t[0])
    ensures AllIndices([x] + t) && Ascending([x] + t)
  {
    var r := [x] + t;
    forall i, j | 0 <= i < j < |r| ensures DigitsValue(r[i]) <= DigitsValue(r[j]) {
      assert r[j] == t[j - 1];
      if i > 0 { assert r[i] == t[i - 1]; }
      else if j > 1 { assert DigitsValue(t[0]) <= DigitsValue(t[j - 1]); }
    }
  }

  lemma {:induction false} InsertAscending(x: string, t: seq<string>)
    requires IsArrayIndex(x) && AllIndices(t) && Ascending(t)
    ensures Ascending(InsertIndex(x, t))
  {
    if t == [] || DigitsValue(x) <= DigitsValue(t[0]) {
      InsertAscendingFront(x, t);
    } else {
      var tail := t[1..];
      var rest := InsertIndex(x, tail);
      var r := [t[0]] + rest;
      assert InsertIndex(x, t) == r;
      assert Ascending(tail) by {
        forall i, j | 0 <= i < j < |tail| ensures DigitsValue(tail[i]) <= DigitsValue(tail[j]) {
          assert tail[i] == t[i + 1] && tail[j] == t[j + 1];
        }
      }
      InsertAscending(x, tail);
      forall j | 0 <= j < |rest| ensures DigitsValue(t[0]) <= DigitsValue(rest[j]) {
        assert rest[j] in rest;
        if rest[j] != x {
          var k :| 0 <= k < |tail| && tail[k] == rest[j];
          assert tail[k] == t[k + 1];
        }
      }
      forall i, j | 0 <= i < j < |r| ensures DigitsValue(r[i]) <= DigitsValue(r[j]) {
        assert r[j] == rest[j - 1];
        if i > 0 { assert r[i] == rest[i - 1]; }
      }
    }
  }

  lemma {:induction false} InsertNoDuplicates(x: string, t: seq<string>)
    requires IsArrayIndex(x) && AllIndices(t) && NoDuplicates(t) && x !in t
    ensures NoDuplicates(InsertIndex(x, t))
  {
    var r := InsertIndex(x, t);
    if t == [] || DigitsValue(x) <= DigitsValue(t[0]) {
      assert r == [x] + t;
      forall i, j | 0 <= i < j < |r| ensures r[i] != r[j] {
        assert r[j] == t[j - 1];
        if i > 0 { assert r[i] == t[i - 1]; }
      }
    } else {
      var rest := InsertIndex(x, t[1..]);
      assert r == [t[0]] + rest;
      assert NoDuplicates(t[1..]) by {
        forall i, j | 0 <= i < j < |t[1..]| ensures t[1..][i] != t[1..][j] {
          assert t[1..][i] == t[i + 1] && t[1..][j] == t[j + 1];
        }
      }
      assert t[0] !in t[1..] by {
        forall k | 0 <= k < |t[1..]| ensures t[1..][k] != t[0] {
          assert t[1..][k] == t[k + 1];
        }
      }
      assert x !in t[1..];
      InsertNoDuplicates(x, t[1..]);
      assert t[0] !in rest;
      forall i, j | 0 <= i < j < |r| ensures r[i] != r[j] {
        assert r[j] == rest[j - 1] && r[j] in rest;
        if i > 0 { assert r[i] == rest[i - 1]; }
      }
    }
  }

  /** Array-index keys sorted by their numeric value. */
  function SortIndices(t: seq<string>): (r: seq<string>)
    requires AllIndices(t)
    ensures |r| == |t| && AllIndices(r) && Ascending(r)
    ensures forall y :: y in r <==> y in t
    ensures NoDuplicates(t) ==> NoDuplicates(r)
  {
    if t == [] then []
    else
      var init := t[..|t| - 1];
      var last := t[|t| - 1];
      assert t == init + [last];
      assert NoDuplicates(t) ==> NoDuplicates(init) && last !in init by {
        if NoDuplicates(t) {
          forall i, j | 0 <= i < j < |init| ensures init[i] != init[j] {
            assert init[i] == t[i] && init[j] == t[j];
          }
          forall i | 0 <= i < |init| ensures init[i] != last {
            assert init[i] == t[i];
          }
        }
      }
      var sorted := SortIndices(init);
      InsertAscending(last, sorted);
      if NoDuplicates(t) then
        InsertNoDuplicates(last, sorted);
        InsertIndex(last, sorted)
      else InsertIndex(last, sorted)
  }

  /** The order in which a JavaScript object lists its own keys, given the order
      they were added in: array indices first, ascending by value, then every
      other key in insertion order. */
  function PropertyOrder(s: seq<string>): (r: seq<string>)
    ensures |r| == |s|
    ensures forall y :: y in r <==> y in s
    ensures NoDuplicates(s) ==> NoDuplicates(r)
    ensures (forall i :: 0 <= i < |s| ==> !IsArrayIndex(s[i])) ==> r == s
  {
    var a := SortIndices(KeysWhere(s, true));
    var b := KeysWhere(s, false);
    KeysWhereSplit(s);
    if forall i :: 0 <= i < |s| ==> !IsArrayIndex(s[i]) then
      KeysWhereUniform(s, false);
      a + b
    else if NoDuplicates(s) then
      KeysWhereNoDuplicates(s, true);
      KeysWhereNoDuplicates(s, false);
      ConcatNoDuplicates(a, b);
      a + b
    else a + b
  }

  /** Two duplicate-free lists with no key in common concatenate to one. */
  lemma ConcatNoDuplicates(a: seq<string>, b: seq<string>)
    requires NoDuplicates(a) && NoDuplicates(b) && forall x :: x in a ==> x !in b
    ensures NoDuplicates(a + b)
  {
    forall i, j | 0 <= i < j < |a + b| ensures (a + b)[i] != (a + b)[j] {
      if j < |a| {
        assert (a + b)[i] == a[i] && (a + b)[j] == a[j];
      } else if i >= |a| {
        assert (a + b)[i] == b[i - |a|] && (a + b)[j] == b[j - |a|];
      } else {
        assert (a + b)[i] == a[i] && a[i] in a;
        assert (a + b)[j] == b[j - |a|] && b[j - |a|] in b;
      }
    }
  }

  /** The cache object's entries for the keys `ks`, in that order. */
  function CacheItems(ks: seq<string>, src: map<string, Entry>): (r: seq<(string, CacheValue)>)
    requires forall i :: 0 <= i < |ks| ==> ks[i] in src
    ensures |r| == |ks|
  {
    if ks == [] then []
    else
      var k := ks[|ks| - 1];
      CacheItems(ks[..|ks| - 1], src) + [(k, Record(src[k]))]
  }

  /** `Object.fromEntries(this.data)` as `Object.entries` lists it after the JSON
      round trip through the local cache (script.js:108, 138-139): every entry,
      with the keys in property order. */
  function EncodeCache(m: ProgressMap): (r: seq<(string, CacheValue)>)
    requires m.Valid()
    ensures |r| == |m.order|
  {
    var ks := PropertyOrder(m.order);
    assert forall i :: 0 <= i < |ks| ==> ks[i] in ks;
    CacheItems(ks, m.entries)
  }

  /** The map a reload from the local cache gives: the same entries, with the keys
      in property order. */
  function CacheOrdered(m: ProgressMap): (r: ProgressMap)
    ensures m.Valid() ==> r.Valid()
  {
    ProgressMap(m.entries, PropertyOrder(m.order))
  }

  /** The forEach of script.js:108-115 on top of `m`: `true` becomes a fresh entry,
      `false` is skipped, an object is kept as it is. */
  function DecodeCache(m: ProgressMap, saved: seq<(string, CacheValue)>): (r: ProgressMap)
    ensures m.Valid() ==> r.Valid()
  {
    if saved == [] then m
    else
      var rest := DecodeCache(m, saved[..|saved| - 1]);
      var (id, v) := saved[|saved| - 1];
      match v
      case Flag(b) => if b then Put(rest, id, FreshEntry) else rest
      case Record(e) => Put(rest, id, e)
  }

  /** script.js:106-118: a cache that does not parse (`None`) leaves the map unchanged. */
  function LoadCache(m: ProgressMap, saved: Option<seq<(string, CacheValue)>>): ProgressMap {
    if saved.Some? then DecodeCache(m, saved.value) else m
  }

  /** Reloading from the local cache restores every entry exactly. The keys come
      back in property order, which is the insertion order unless some key is an
      array index. */
  lemma CacheRoundTrip(m: ProgressMap)
    requires m.Valid()
    ensures LoadCache(Empty, Some(EncodeCache(m))) == CacheOrdered(m)
    ensures LoadCache(Empty, Some(EncodeCache(m))).entries == m.entries
    ensures (forall i :: 0 <= i < |m.order| ==> !IsArrayIndex(m.order[i])) ==>
      LoadCache(Empty, Some(EncodeCache(m))) == m
  {
    CacheReplaysOrdered(m);
  }

  lemma CacheReplaysOrdered(m: ProgressMap)
    requires m.Valid()
    ensures DecodeCache(Empty, EncodeCache(m)) == CacheOrdered(m)
  {
    var ks := PropertyOrder(m.order);
    var c := ProgressMap(m.entries, ks);
    assert c.Valid();
    assert forall i :: 0 <= i < |ks| ==> ks[i] in m.entries by {
      forall i | 0 <= i < |ks| ensures ks[i] in m.entries {
        assert ks[i] in ks;
      }
    }
    assert EncodeCache(m) == CacheItems(ks, m.entries);
    DecodeCacheReplays(ks, m.entries);
    ReplayAll(c);
  }

  lemma {:induction false} DecodeCacheReplays(ks: seq<string>, src: map<string, Entry>)
    requires forall i :: 0 <= i < |ks| ==> ks[i] in src
    ensures DecodeCache(Empty, CacheItems(ks, src)) == Replayed(Empty, ks, src)
  {
    if ks != [] {
      var init := ks[..|ks| - 1];
      var k := ks[|ks| - 1];
      var items := CacheItems(ks, src);
      assert items == CacheItems(init, src) + [(k, Record(src[k]))];
      assert items[..|items| - 1] == CacheItems(init, src);
      DecodeCacheReplays(init, src);
    }
  }

  /** The cache lists "7" before "thor1" whatever order they were added in. */
  lemma IndexKeyFirst()
    ensures PropertyOrder(["thor1", "7"]) == ["7", "thor1"]
  {
    assert DigitsValue("7") == 7;
    assert IsArrayIndex("7");
    assert !IsDigit("thor1"[0]);
    assert !IsArrayIndex("thor1");
    assert ["thor1", "7"][1..] == ["7"];
    assert ["7"][1..] == [];
    assert KeysWhere(["thor1", "7"], true) == ["7"];
    assert KeysWhere(["thor1", "7"], false) == ["thor1"];
    assert SortIndices(["7"]) == ["7"];
  }

  /** An array-index key moves to the front on a reload from the cache, so the
      id that centering falls back to can change. */
  lemma CacheMovesIndexKeysFirst()
    ensures var m := Put(Put(Empty, "thor1", FreshEntry), "7", FreshEntry);
      LastWatchedId(m) == "7" && LastWatchedId(LoadCache(Empty, Some(EncodeCache(m)))) == "thor1"
  {
    var m := Put(Put(Empty, "thor1", FreshEntry), "7", FreshEntry);
    assert m.order == ["thor1", "7"];
    assert m.Valid();
    IndexKeyFirst();
    CacheRoundTrip(m);
  }

  /** What save writes for `m`: the server payload and the cache object. Each
      reads back as `m`, normalised by the server and in property order from the
      cache. */
  function Persisted(m: ProgressMap): (r: (seq<ServerEntry>, seq<(string, CacheValue)>))
    requires m.Valid()
    ensures r.0 == EncodeServer(m) && r.1 == EncodeCache(m)
    ensures DecodeServer(Empty, r.0) == NormalizedMap(m)
    ensures DecodeCache(Empty, r.1) == CacheOrdered(m) && DecodeCache(Empty, r.1).entries == m.entries
  {
    ServerRoundTrip(m);
    CacheReplaysOrdered(m);
    (EncodeServer(m), EncodeCache(m))
  }

  /** The legacy boolean format: `true` marks an id watched once, `false` not at all. */
  lemma LegacyFlags(m: ProgressMap, id: string)
    requires m.Valid() && id !in m.entries
    ensures DecodeCache(m, [(id, Flag(true))]).entries == m.entries[id := FreshEntry]
    ensures DecodeCache(m, [(id, Flag(false))]) == m
  {
    assert [(id, Flag(true))][..0] == [];
    assert [(id, Flag(false))][..0] == [];
  }

  /** load (script.js:85-119): the server's entries when logged in and the request
      succeeded (`response` is `None` when it failed, was refused, or carried no
      array), otherwise the local cache (`cache` is `None` when it does not parse). */
  function Loaded(m: ProgressMap, loggedIn: bool, response: Option<seq<ServerEntry>>,
                  cache: Option<seq<(string, CacheValue)>>): (r: ProgressMap)
    ensures m.Valid() ==> r.Valid()
  {
    if loggedIn && response.Some? then DecodeServer(m, response.value) else LoadCache(m, cache)
  }

  /** A fresh page load reads back what the last save wrote: the server copy up to
      missing `watchedWith` arrays, the local cache up to the property order of
      its keys. */
  lemma ReloadAfterSave(m: ProgressMap, other: Option<seq<(string, CacheValue)>>, failed: Option<seq<ServerEntry>>)
    requires m.Valid()
    ensures Loaded(Empty, true, Some(EncodeServer(m)), other) == NormalizedMap(m)
    ensures failed.None? ==> Loaded(Empty, true, failed, Some(EncodeCache(m))) == CacheOrdered(m)
    ensures Loaded(Empty, false, failed, Some(EncodeCache(m))) == CacheOrdered(m)
  {
    ServerRoundTrip(m);
    CacheRoundTrip(m);
  }

  // ---------------------------------------------------------------------
  // Memory removal (script.js:624-625)

  /** `memories.filter(m => m.url !== url)`. */
  function WithoutUrl(ms: seq<Memory>, url: string): (r: seq<Memory>)
    ensures |r| <= |ms|
  {
    if ms == [] then []
    else (if ms[0].url != url then [ms[0]] else []) + WithoutUrl(ms[1..], url)
  }

  /** Removing memories by URL works piece by piece, so the memories that stay keep
      their relative order. */
  lemma {:induction false} WithoutUrlDistributes(a: seq<Memory>, b: seq<Memory>, url: string)
    ensures WithoutUrl(a + b, url) == WithoutUrl(a, url) + WithoutUrl(b, url)
  {
    if a == [] {
      assert a + b == b;
    } else {
      assert (a + b)[0] == a[0];
      assert (a + b)[1..] == a[1..] + b;
      WithoutUrlDistributes(a[1..], b, url);
      var head := if a[0].url != url then [a[0]] else [];
      assert WithoutUrl(a + b, url) == head + WithoutUrl(a[1..] + b, url);
      assert WithoutUrl(a, url) == head + WithoutUrl(a[1..], url);
    }
  }

  /** The memories that stay are exactly those with another URL. */
  lemma {:induction false} WithoutUrlMembers(ms: seq<Memory>, url: string)
    ensures forall x :: x in WithoutUrl(ms, url) <==> x in ms && x.url != url
  {
    if ms != [] {
      WithoutUrlMembers(ms[1..], url);
      assert ms == [ms[0]] + ms[1..];
    }
  }

  /** Removing a URL no memory has changes nothing. */
  lemma {:induction false} WithoutAbsentUrl(a: seq<Memory>, url: string)
    requires forall i :: 0 <= i < |a| ==> a[i].url != url
    ensures WithoutUrl(a, url) == a
  {
    if a != [] {
      WithoutAbsentUrl(a[1..], url);
    }
  }

  function MemoryRemoved(m: ProgressMap, id: string, url: string): ProgressMap {
    if id in m.entries then
      var e := m.entries[id];
      Put(m, id, e.(memories := WithoutUrl(e.memories, url)))
    else m
  }

  lemma MemoryRemovedSpec(m: ProgressMap, id: string, url: string)
    requires m.Valid()
    ensures var r := MemoryRemoved(m, id, url);
      r.Valid() && r.Keys() == m.Keys() && r.order == m.order && SameExcept(m, r, id) &&
      GetCount(r, id) == GetCount(m, id) &&
      GetMemories(r, id) == WithoutUrl(GetMemories(m, id), url) &&
      (id in m.entries ==> r.entries[id].watchedWith == m.entries[id].watchedWith) &&
      forall x :: x in GetMemories(r, id) <==> x in GetMemories(m, id) && x.url != url
  {
    if id in m.entries {
      WithoutUrlMembers(m.entries[id].memories, url);
    }
  }

  // ---------------------------------------------------------------------
  // Watch-together bookkeeping on the client (script.js:946-956, 1093-1122)

  /** `list.includes(name)` followed, if absent, by `list.push(name)`. */
  function AddName(list: seq<string>, name: string): (r: seq<string>)
    ensures name in r && |r| == |list| + (if name in list then 0 else 1) && r[..|list|] == list
  {
    if name in list then list else list + [name]
  }

  /** The accept handler of script.js:946-956 as written. The second component is
      true when `entry.watchedWith.includes` throws because the entry has no
      `watchedWith` array; the count has been raised by then, and the save and the
      render that follow are skipped. */
  function AcceptMergeAsWritten(m: ProgressMap, id: string, requester: Option<string>): (ProgressMap, bool) {
    if id in m.entries then
      var e := m.entries[id];
      var raised := e.(count := e.count + 1);
      if requester.Some? && requester.value != "" then
        if raised.watchedWith.None? then (Put(m, id, raised), true)
        else (Put(m, id, raised.(watchedWith := Some(AddName(raised.watchedWith.value, requester.value)))), false)
      else (Put(m, id, raised), false)
    else (Put(m, id, Entry(1, Some([]), [])), false)
  }

  /** The accept handler with a missing `watchedWith` read as `[]`, as
      getWatchedWith (script.js:218) reads it. */
  function AcceptMerge(m: ProgressMap, id: string, requester: Option<string>): ProgressMap {
    if id in m.entries then
      var e := m.entries[id];
      var raised := e.(count := e.count + 1);
      if requester.Some? && requester.value != "" then
        Put(m, id, raised.(watchedWith := Some(AddName(raised.watchedWith.GetOr([]), requester.value))))
      else Put(m, id, raised)
    else Put(m, id, Entry(1, Some([]), []))
  }

  /** The as-written handler throws on an entry that toggle created. */
  lemma AcceptMergeThrowsAfterToggle()
    ensures AcceptMergeAsWritten(Toggled(Empty, "thor1"), "thor1", Some("sam")).1
  {
  }

  /** Accepting a watch request: an absent entry is created with count 1 and no
      co-viewers, whoever asked; a present one gains one viewing and keeps its
      memories, and its co-viewers gain the requester's name at the end unless it
      is already there. Without a requester name the co-viewers stay as they are.
      No other entry changes, and the two handlers agree wherever the as-written
      one does not throw. */
  lemma AcceptMergeSpec(m: ProgressMap, id: string, requester: Option<string>)
    requires m.Valid()
    ensures var r := AcceptMerge(m, id, requester);
      r.Valid() && SameExcept(m, r, id) && id in r.entries &&
      (id !in m.entries ==> r.entries[id] == Entry(1, Some([]), []) && LastWatchedId(r) == id) &&
      (id in m.entries ==>
        r.order == m.order && GetCount(r, id) == GetCount(m, id) + 1 &&
        GetMemories(r, id) == GetMemories(m, id) &&
        (requester.Some? && requester.value != "" ==>
          GetWatchedWith(r, id) == GetWatchedWith(m, id) +
            (if requester.value in GetWatchedWith(m, id) then [] else [requester.value])) &&
        (!(requester.Some? && requester.value != "") ==>
          r.entries[id].watchedWith == m.entries[id].watchedWith))
    ensures !AcceptMergeAsWritten(m, id, requester).1 ==>
      AcceptMergeAsWritten(m, id, requester).0 == AcceptMerge(m, id, requester)
  {
  }

  /** script.js:1093-1097: the sender marks the project watched if it is not. */
  function MarkWatchedTogether(m: ProgressMap, id: string): ProgressMap {
    if id in m.entries then m else Put(m, id, Entry(1, Some([]), []))
  }

  /** script.js:1117-1122 as written: the second component is true when
      `entry.watchedWith.includes` throws on an entry without the array. */
  function RecordCoViewerAsWritten(m: ProgressMap, id: string, friend: string): (ProgressMap, bool) {
    if id in m.entries then
      var e := m.entries[id];
      if e.watchedWith.None? then (m, true)
      else if friend in e.watchedWith.value then (m, false)
      else (Put(m, id, e.(watchedWith := Some(e.watchedWith.value + [friend]))), false)
    else (m, false)
  }

  /** script.js:1117-1122 with a missing `watchedWith` read as `[]`. */
  function RecordCoViewer(m: ProgressMap, id: string, friend: string): ProgressMap {
    if id in m.entries then
      var e := m.entries[id];
      var names := e.watchedWith.GetOr([]);
      if friend in names then m
      else Put(m, id, e.(watchedWith := Some(names + [friend])))
    else m
  }

  /** Marking a project watched with a friend on an id that was toggled on before
      throws in the as-written handler. */
  lemma RecordCoViewerThrowsAfterToggle()
    ensures var m := MarkWatchedTogether(Toggled(Empty, "thor1"), "thor1");
      RecordCoViewerAsWritten(m, "thor1", "sam").1
  {
  }

  /** "Watched with a friend": afterwards the project is watched and its
      co-viewers are the old ones followed by the friend, unless the friend was
      already among them. A watched entry keeps its count and memories, an
      unwatched one starts at count 1 with the friend alone, and no other entry
      changes. */
  lemma WatchedTogetherSpec(m: ProgressMap, id: string, friend: string)
    requires m.Valid()
    ensures var w := MarkWatchedTogether(m, id);
      var r := RecordCoViewer(w, id, friend);
      r.Valid() && SameExcept(m, r, id) && id in r.entries &&
      GetWatchedWith(r, id) == GetWatchedWith(m, id) + (if friend in GetWatchedWith(m, id) then [] else [friend]) &&
      (id in m.entries ==> GetCount(r, id) == GetCount(m, id) && GetMemories(r, id) == GetMemories(m, id)) &&
      (id !in m.entries ==> GetCount(r, id) == 1 && GetWatchedWith(r, id) == [friend])
    ensures var r := RecordCoViewer(MarkWatchedTogether(m, id), id, friend);
      (id in m.entries ==> r.order == m.order) &&
      (id !in m.entries ==> r.order == m.order + [id] && LastWatchedId(r) == id && GetMemories(r, id) == [])
    ensures var w := MarkWatchedTogether(m, id);
      !RecordCoViewerAsWritten(w, id, friend).1 ==>
        RecordCoViewerAsWritten(w, id, friend).0 == RecordCoViewer(w, id, friend)
  {
  }
}
