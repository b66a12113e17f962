/**
 * The per-tag engine arrays of `BrowserSearchEngines._engines`, as values.
 * A slot emptied by `delete` stays in the array as a hole: the array keeps its
 * length and `for (e in array)` skips the hole.
 */
module Buckets {
  import opened Wrappers
  import opened Engine

  /** One element of a tag's engine array. */
  datatype Slot = Hole | Filled(engine: SearchEngine)

  /** The slot holds an engine whose host is `host`. */
  predicate Holds(s: Slot, host: string) {
    s.Filled? && s.engine.host == host
  }

  /** No two engines in the array share a host. */
  predicate HostsUnique(b: seq<Slot>) {
    forall i, j :: 0 <= i < j < |b| && b[i].Filled? && b[j].Filled? ==> b[i].engine.host != b[j].engine.host
  }

  /** The only slot holding `host` is slot `i`, and it holds `e`. */
  predicate OnlySlot(b: seq<Slot>, i: int, e: SearchEngine) {
    0 <= i < |b| && b[i] == Filled(e) && forall j :: 0 <= j < |b| && Holds(b[j], e.host) ==> j == i
  }

  /** The `_default` array holds `e` in exactly one slot and no other engine with its host. */
  ghost predicate DefaultOnce(buckets: map<string, seq<Slot>>, e: SearchEngine) {
    DefaultTag in buckets && exists i :: OnlySlot(buckets[DefaultTag], i, e)
  }

  /** Every tag other than `_default` has the same array (or none) in both indexes. */
  ghost predicate SameExceptDefault(a: map<string, seq<Slot>>, b: map<string, seq<Slot>>) {
    forall t :: t != DefaultTag ==> (t in a <==> t in b) && (t in a ==> a[t] == b[t])
  }

  /** The index of the first non-hole slot holding `host`: the slot `_updateTags` and `removeTagByHost` stop at. */
  function FindHost(b: seq<Slot>, host: string): (r: Option<nat>)
    ensures r.Some? ==> r.value < |b| && Holds(b[r.value], host)
    ensures r.Some? ==> forall j :: 0 <= j < r.value ==> !Holds(b[j], host)
    ensures r.None? ==> forall j :: 0 <= j < |b| ==> !Holds(b[j], host)
  {
    if b == [] then None
    else if Holds(b[0], host) then Some(0)
    else
      match FindHost(b[1..], host)
      case None => None
      case Some(k) => Some(k + 1)
  }

  /** The array after `_updateTags(tag, e)`: the first slot with `e`'s host now holds `e`, or `e` is pushed. */
  function Upsert(b: seq<Slot>, e: SearchEngine): (r: seq<Slot>)
    ensures |b| <= |r| <= |b| + 1
  {
    match FindHost(b, e.host)
    case Some(i) => b[i := Filled(e)]
    case None => b + [Filled(e)]
  }

  /** The array after `removeTagByHost`'s loop: the first slot with `host` becomes a hole. */
  function HoleFirst(b: seq<Slot>, host: string): (r: seq<Slot>)
    ensures |r| == |b|
    ensures forall j :: 0 <= j < |b| && r[j] != b[j] ==> Holds(b[j], host) && r[j] == Hole
  {
    match FindHost(b, host)
    case Some(i) => b[i := Hole]
    case None => b
  }

  /** The tag's array, or the empty array `_updateTags` creates for a new tag. */
  function BucketOr(buckets: map<string, seq<Slot>>, tag: string): seq<Slot> {
    if tag in buckets then buckets[tag] else []
  }

  /** The tag index after `add(e)`: `_updateTags(t, e)` for each `t` of `tags`, in order. */
  function UpsertTags(buckets: map<string, seq<Slot>>, tags: seq<string>, e: SearchEngine): (r: map<string, seq<Slot>>)
    ensures |tags| > 0 ==> tags[|tags| - 1] in r
  {
    if tags == [] then buckets
    else
      var before := UpsertTags(buckets, tags[..|tags| - 1], e);
      var t := tags[|tags| - 1];
      before[t := Upsert(BucketOr(before, t), e)]
  }

  /** The key order of the tag index after new tags were created in the order of `tags`. */
  function Enrolled(order: seq<string>, tags: seq<string>): (r: seq<string>)
    ensures |order| <= |r|
  {
    if tags == [] then order
    else
      var before := Enrolled(order, tags[..|tags| - 1]);
      var t := tags[|tags| - 1];
      if t in before then before else before + [t]
  }

  /** One more tag for `add`: its array is updated on top of what the earlier tags did. */
  lemma UpsertTagsSnoc(buckets: map<string, seq<Slot>>, tags: seq<string>, t: string, e: SearchEngine)
    ensures UpsertTags(buckets, tags + [t], e)
         == UpsertTags(buckets, tags, e)[t := Upsert(BucketOr(UpsertTags(buckets, tags, e), t), e)]
  {
    assert (tags + [t])[..|tags|] == tags;
  }

  /** One more tag for `add`: it is listed after the earlier keys unless already there. */
  lemma EnrolledSnoc(order: seq<string>, tags: seq<string>, t: string)
    ensures Enrolled(order, tags + [t]) == if t in Enrolled(order, tags) then Enrolled(order, tags) else Enrolled(order, tags) + [t]
  {
    assert (tags + [t])[..|tags|] == tags;
  }

  /** No tag is listed twice. */
  predicate Distinct(s: seq<string>) {
    forall i, j :: 0 <= i < j < |s| ==> s[i] != s[j]
  }

  /**
   * After an upsert of `e`, exactly one slot carries `e`'s host and it holds
   * `e` itself; hosts stay unique.
   */
  lemma UpsertPlacesOnce(b: seq<Slot>, e: SearchEngine)
    requires HostsUnique(b)
    ensures HostsUnique(Upsert(b, e))
    ensures exists i :: OnlySlot(Upsert(b, e), i, e)
  {
    var r := Upsert(b, e);
    match FindHost(b, e.host)
    case Some(i) =>
      assert OnlySlot(r, i, e);
    case None =>
      assert OnlySlot(r, |b|, e);
  }

  /**
   * Re-adding a host already in the array replaces its first slot in place:
   * the length is unchanged and no other slot changes. A new host is
   * appended after every existing slot, holes included.
   */
  lemma UpsertInPlace(b: seq<Slot>, e: SearchEngine)
    ensures FindHost(b, e.host).Some? ==> |Upsert(b, e)| == |b|
    ensures FindHost(b, e.host).None? ==> |Upsert(b, e)| == |b| + 1 && Upsert(b, e)[..|b|] == b
    ensures forall j :: 0 <= j < |b| && Upsert(b, e)[j] != b[j] ==>
              j == FindHost(b, e.host).value && Upsert(b, e)[j] == Filled(e)
  {
  }

  /** Upserting the same engine twice is the same as upserting it once. */
  lemma {:induction false} UpsertIdempotent(b: seq<Slot>, e: SearchEngine)
    ensures Upsert(Upsert(b, e), e) == Upsert(b, e)
  {
    var r := Upsert(b, e);
    match FindHost(b, e.host)
    case Some(i) =>
      assert Holds(r[i], e.host);
      assert forall j :: 0 <= j < i ==> r[j] == b[j] && !Holds(r[j], e.host);
      assert FindHost(r, e.host) == Some(i);
    case None =>
      assert Holds(r[|b|], e.host);
      assert forall j :: 0 <= j < |b| ==> r[j] == b[j] && !Holds(r[j], e.host);
      assert FindHost(r, e.host) == Some(|b|);
  }

  /**
   * `removeTagByHost` on one array: the length never changes; if no slot
   * holds the host nothing changes; otherwise only the first such slot
   * becomes a hole, and (hosts being unique) the host is gone.
   */
  lemma HoleFirstSpec(b: seq<Slot>, host: string)
    ensures |HoleFirst(b, host)| == |b|
    ensures FindHost(b, host).None? ==> HoleFirst(b, host) == b
    ensures forall j :: 0 <= j < |b| && HoleFirst(b, host)[j] != b[j] ==> Holds(b[j], host) && HoleFirst(b, host)[j] == Hole
    ensures HostsUnique(b) ==> HostsUnique(HoleFirst(b, host))
    ensures HostsUnique(b) ==> forall j :: 0 <= j < |b| ==> !Holds(HoleFirst(b, host)[j], host)
  {
  }

  /**
   * The tag index after `add`: a bucket exists for every tag the engine
   * carries and holds the engine as one upsert; every other bucket, and the
   * absence of every other tag, is untouched. Duplicate tags in `tags` change
   * nothing, since an upsert is idempotent.
   */
  lemma {:induction false} UpsertTagsSpec(buckets: map<string, seq<Slot>>, tags: seq<string>, e: SearchEngine)
    ensures forall t :: t in UpsertTags(buckets, tags, e) <==> t in buckets || t in tags
    ensures forall t :: t in buckets && t !in tags ==> UpsertTags(buckets, tags, e)[t] == buckets[t]
    ensures forall t :: t in tags ==> UpsertTags(buckets, tags, e)[t] == Upsert(BucketOr(buckets, t), e)
  {
    if tags != [] {
      var init := tags[..|tags| - 1];
      var last := tags[|tags| - 1];
      UpsertTagsSpec(buckets, init, e);
      assert forall t :: t in tags <==> t in init || t == last;
      if last in init {
        UpsertIdempotent(BucketOr(buckets, last), e);
      }
    }
  }

  /**
   * Every bucket of a tag the engine carries ends up holding the engine in
   * exactly one slot, provided the buckets had unique hosts before.
   */
  lemma AddPlacesOnce(buckets: map<string, seq<Slot>>, tags: seq<string>, e: SearchEngine)
    requires forall t :: t in buckets ==> HostsUnique(buckets[t])
    ensures forall t :: t in UpsertTags(buckets, tags, e) ==> HostsUnique(UpsertTags(buckets, tags, e)[t])
    ensures forall t :: t in tags ==>
              (t in UpsertTags(buckets, tags, e) && exists i :: OnlySlot(UpsertTags(buckets, tags, e)[t], i, e))
  {
    UpsertTagsSpec(buckets, tags, e);
    forall t | t in tags
      ensures HostsUnique(UpsertTags(buckets, tags, e)[t])
      ensures exists i :: OnlySlot(UpsertTags(buckets, tags, e)[t], i, e)
    {
      UpsertPlacesOnce(BucketOr(buckets, t), e);
    }
  }

  /** Adding the same engine twice leaves the tag index as one add did: no duplicates appear. */
  lemma AddTwiceIsAddOnce(buckets: map<string, seq<Slot>>, tags: seq<string>, e: SearchEngine)
    ensures UpsertTags(UpsertTags(buckets, tags, e), tags, e) == UpsertTags(buckets, tags, e)
  {
    var once := UpsertTags(buckets, tags, e);
    var twice := UpsertTags(once, tags, e);
    UpsertTagsSpec(buckets, tags, e);
    UpsertTagsSpec(once, tags, e);
    forall t | t in once ensures t in twice && twice[t] == once[t] {
      if t in tags {
        var b := BucketOr(buckets, t);
        assert BucketOr(once, t) == Upsert(b, e);
        UpsertIdempotent(b, e);
      }
    }
    assert twice.Keys == once.Keys;
  }

  /**
   * A re-add carrying only `_found` (what a change notification does) leaves
   * the `_default` bucket as it was: the engine keeps its `_default` slot,
   * still holding the old engine object.
   */
  lemma FoundReAddKeepsDefaultSlot(buckets: map<string, seq<Slot>>, e: SearchEngine)
    requires DefaultTag in buckets
    ensures var r := UpsertTags(buckets, [FoundTag], e);
              DefaultTag in r && r[DefaultTag] == buckets[DefaultTag] && FoundTag in r
  {
    UpsertTagsSpec(buckets, [FoundTag], e);
  }

  /**
   * The key order after enrolling `tags`: every key listed once, the old keys
   * first and in their old order.
   */
  lemma {:induction false} EnrolledSpec(order: seq<string>, tags: seq<string>)
    requires Distinct(order)
    ensures Distinct(Enrolled(order, tags))
    ensures forall t :: t in Enrolled(order, tags) <==> t in order || t in tags
    ensures |order| <= |Enrolled(order, tags)| && Enrolled(order, tags)[..|order|] == order
    ensures Enrolled(order, tags)[|order|..] == FirstSeen(order, tags)
  {
    EnrolledIsFirstSeen(order, tags);
    if tags != [] {
      var init := tags[..|tags| - 1];
      EnrolledSpec(order, init);
      assert forall t :: t in tags <==> t in init || t == tags[|tags| - 1];
      var before := Enrolled(order, init);
      assert (before + [tags[|tags| - 1]])[..|order|] == before[..|order|];
    }
  }

  /**
   * The tags of `tags` not in `seen`, each kept at its first occurrence,
   * read front to back.
   */
  function FirstSeen(seen: seq<string>, tags: seq<string>): (r: seq<string>)
    ensures forall t :: t in r ==> t in tags && t !in seen
    decreases |tags|
  {
    if tags == [] then []
    else if tags[0] in seen then FirstSeen(seen, tags[1..])
    else [tags[0]] + FirstSeen(seen + [tags[0]], tags[1..])
  }

  /** Enrolling `a + b` is enrolling `a`, then `b`. */
  lemma {:induction false} EnrolledConcat(order: seq<string>, a: seq<string>, b: seq<string>)
    ensures Enrolled(order, a + b) == Enrolled(Enrolled(order, a), b)
    decreases |b|
  {
    if b == [] {
      assert a + b == a;
    } else {
      var init := b[..|b| - 1];
      EnrolledConcat(order, a, init);
      assert (a + b)[..|a + b| - 1] == a + init;
    }
  }

  /** The keys `add` enrols are the old keys followed by the new tags in first-seen order. */
  lemma {:induction false} EnrolledIsFirstSeen(order: seq<string>, tags: seq<string>)
    ensures Enrolled(order, tags) == order + FirstSeen(order, tags)
    decreases |tags|
  {
    if tags != [] {
      var t, rest := tags[0], tags[1..];
      assert tags == [t] + rest;
      EnrolledConcat(order, [t], rest);
      assert [t][..0] == [];
      var next := Enrolled(order, [t]);
      EnrolledIsFirstSeen(next, rest);
      if t !in order {
        assert next == order + [t];
      }
    }
  }

  /** An upsert of one host leaves the single slot of any other host where it was. */
  lemma UpsertKeepsOthers(b: seq<Slot>, e: SearchEngine, i: int, other: SearchEngine)
    requires OnlySlot(b, i, other) && other.host != e.host
    ensures OnlySlot(Upsert(b, e), i, other)
  {
  }

  /** `Upsert` on an array where slot `p` is the (only) slot holding the engine's host replaces that slot. */
  lemma UpsertAt(b: seq<Slot>, e: SearchEngine, p: int)
    requires HostsUnique(b) && 0 <= p < |b| && Holds(b[p], e.host)
    ensures Upsert(b, e) == b[p := Filled(e)]
  {
    assert FindHost(b, e.host) == Some(p);
  }

  /**
   * The hosts `_init` pushes onto the `_default` array `base`, in the order it
   * first meets them: each host of `hosts` that `base` does not hold, once.
   */
  function Appended(base: seq<Slot>, hosts: seq<string>): seq<string> {
    if hosts == [] then []
    else
      var before := Appended(base, hosts[..|hosts| - 1]);
      var h := hosts[|hosts| - 1];
      if h in before || FindHost(base, h).Some? then before else before + [h]
  }

  /** The appended hosts are exactly the hosts `base` does not hold, each once. */
  lemma {:induction false} AppendedSpec(base: seq<Slot>, hosts: seq<string>)
    ensures forall x :: x in Appended(base, hosts) <==> x in hosts && FindHost(base, x).None?
    ensures Distinct(Appended(base, hosts))
  {
    if hosts != [] {
      var init := hosts[..|hosts| - 1];
      AppendedSpec(base, init);
      assert hosts == init + [hosts[|hosts| - 1]];
    }
  }

  /**
   * `cur` is the `_default` array `base` after engines with the given hosts
   * were added in order, `store` holding the engine added last for each host:
   * a slot of `base` whose host was added again holds that engine, every
   * other slot of `base` is as it was, and the hosts new to `base` follow in
   * first-seen order, each holding its engine. Nothing else is in `cur`.
   */
  ghost predicate SeededFrom(cur: seq<Slot>, base: seq<Slot>, hosts: seq<string>, store: map<string, SearchEngine>) {
    var added := Appended(base, hosts);
    && (forall x :: x in hosts ==> x in store)
    && |cur| == |base| + |added|
    && (forall j :: 0 <= j < |base| ==>
          cur[j] == if base[j].Filled? && base[j].engine.host in hosts then Filled(store[base[j].engine.host]) else base[j])
    && (forall j :: 0 <= j < |added| ==> added[j] in store && cur[|base| + j] == Filled(store[added[j]]))
  }

  /** Before any engine is added the array is its starting value. */
  lemma SeededStart(base: seq<Slot>, store: map<string, SearchEngine>)
    ensures SeededFrom(base, base, [], store)
  {
  }

  /** Adding one more engine (its `_updateTags` on `_default`) keeps the description, with its host appended. */
  lemma SeededStep(cur: seq<Slot>, base: seq<Slot>, hosts: seq<string>, store: map<string, SearchEngine>, e: SearchEngine)
    requires HostsUnique(base) && HostsUnique(cur)
    requires forall x :: x in store ==> store[x].host == x
    requires SeededFrom(cur, base, hosts, store)
    ensures SeededFrom(Upsert(cur, e), base, hosts + [e.host], store[e.host := e])
  {
    var h := e.host;
    var added := Appended(base, hosts);
    AppendedSpec(base, hosts);
    assert (hosts + [h])[..|hosts|] == hosts;
    match FindHost(base, h)
    case Some(j) =>
      assert Holds(cur[j], h);
      UpsertAt(cur, e, j);
      assert Appended(base, hosts + [h]) == added;
      SeededReplace(cur, base, hosts, store, e, j);
    case None =>
      if h in hosts {
        var i :| 0 <= i < |added| && added[i] == h;
        assert Holds(cur[|base| + i], h);
        UpsertAt(cur, e, |base| + i);
        assert Appended(base, hosts + [h]) == added;
        SeededReplace(cur, base, hosts, store, e, |base| + i);
      } else {
        SeededAppend(cur, base, hosts, store, e);
      }
  }

  /** The step where the host is new: the new engine is pushed after every earlier slot. */
  lemma SeededAppend(cur: seq<Slot>, base: seq<Slot>, hosts: seq<string>, store: map<string, SearchEngine>, e: SearchEngine)
    requires forall x :: x in store ==> store[x].host == x
    requires SeededFrom(cur, base, hosts, store)
    requires FindHost(base, e.host).None? && e.host !in hosts
    ensures SeededFrom(Upsert(cur, e), base, hosts + [e.host], store[e.host := e])
  {
    var h := e.host;
    var added := Appended(base, hosts);
    AppendedSpec(base, hosts);
    assert (hosts + [h])[..|hosts|] == hosts;
    forall j | 0 <= j < |cur| ensures !Holds(cur[j], h) {
      if j >= |base| {
        assert cur[|base| + (j - |base|)] == Filled(store[added[j - |base|]]);
      }
    }
    var cur', added', store' := cur + [Filled(e)], added + [h], store[h := e];
    assert Upsert(cur, e) == cur';
    assert Appended(base, hosts + [h]) == added';
    forall j | 0 <= j < |base|
      ensures cur'[j] == if base[j].Filled? && base[j].engine.host in hosts + [h] then Filled(store'[base[j].engine.host]) else base[j]
    {
      assert cur'[j] == cur[j];
    }
    forall j | 0 <= j < |added'| ensures added'[j] in store' && cur'[|base| + j] == Filled(store'[added'[j]]) {
      if j < |added| {
        assert cur'[|base| + j] == cur[|base| + j];
      }
    }
  }

  /** The step where the host is already in the array: its one slot now holds the new engine. */
  lemma SeededReplace(cur: seq<Slot>, base: seq<Slot>, hosts: seq<string>, store: map<string, SearchEngine>,
                      e: SearchEngine, p: int)
    requires HostsUnique(base) && HostsUnique(cur)
    requires forall x :: x in store ==> store[x].host == x
    requires SeededFrom(cur, base, hosts, store)
    requires 0 <= p < |cur| && Holds(cur[p], e.host)
    requires Appended(base, hosts + [e.host]) == Appended(base, hosts)
    ensures SeededFrom(cur[p := Filled(e)], base, hosts + [e.host], store[e.host := e])
  {
    var h := e.host;
    var added := Appended(base, hosts);
    var store' := store[h := e];
    var cur' := cur[p := Filled(e)];
    AppendedSpec(base, hosts);
    forall j | 0 <= j < |base|
      ensures cur'[j] == if base[j].Filled? && base[j].engine.host in hosts + [h] then Filled(store'[base[j].engine.host]) else base[j]
    {
      if j == p {
        assert base[j].Filled? && base[j].engine.host == h;
      }
    }
    forall j | 0 <= j < |added| ensures added[j] in store' && cur'[|base| + j] == Filled(store'[added[j]]) {
      if added[j] == h {
        assert Holds(cur[|base| + j], h);
      } else {
        assert cur[|base| + j] == Filled(store[added[j]]);
      }
    }
  }

  /** In a seeded array without duplicate hosts, each seeded host has exactly one slot, holding its stored engine. */
  lemma SeededOnce(cur: seq<Slot>, base: seq<Slot>, hosts: seq<string>, store: map<string, SearchEngine>, h: string)
    requires HostsUnique(cur) && SeededFrom(cur, base, hosts, store)
    requires forall x :: x in store ==> store[x].host == x
    requires h in hosts
    ensures h in store && exists i :: OnlySlot(cur, i, store[h])
  {
    var added := Appended(base, hosts);
    AppendedSpec(base, hosts);
    var i: int;
    match FindHost(base, h) {
      case Some(p) =>
        i := p;
      case None =>
        var j :| 0 <= j < |added| && added[j] == h;
        i := |base| + j;
    }
    assert cur[i] == Filled(store[h]);
    assert OnlySlot(cur, i, store[h]);
  }

  /** The `_default` array after upserting each engine of `made` in turn. */
  function Reseeded(base: seq<Slot>, made: seq<SearchEngine>): seq<Slot> {
    if made == [] then base else Upsert(Reseeded(base, made[..|made| - 1]), made[|made| - 1])
  }

  /** The storage after writing each engine of `made` under its host in turn. */
  function StoredAll(store: map<string, SearchEngine>, made: seq<SearchEngine>): map<string, SearchEngine> {
    if made == [] then store
    else
      var e := made[|made| - 1];
      StoredAll(store, made[..|made| - 1])[e.host := e]
  }

  /** The hosts of `made`, in order. */
  function HostsIn(made: seq<SearchEngine>): (r: seq<string>)
    ensures |r| == |made| && forall i :: 0 <= i < |made| ==> r[i] == made[i].host
  {
    seq(|made|, i requires 0 <= i < |made| => made[i].host)
  }

  /**
   * Upserting a list of engines into an array without duplicate hosts keeps
   * the old slots (refreshed where re-seeded) and appends the new hosts in
   * order, each holding its last engine.
   */
  lemma {:induction false} ReseededSpec(base: seq<Slot>, made: seq<SearchEngine>, store: map<string, SearchEngine>)
    requires HostsUnique(base)
    requires forall x :: x in store ==> store[x].host == x
    ensures HostsUnique(Reseeded(base, made))
    ensures forall x :: x in StoredAll(store, made) ==> StoredAll(store, made)[x].host == x
    ensures SeededFrom(Reseeded(base, made), base, HostsIn(made), StoredAll(store, made))
  {
    if made == [] {
      SeededStart(base, store);
      assert HostsIn(made) == [];
    } else {
      var init := made[..|made| - 1];
      var e := made[|made| - 1];
      ReseededSpec(base, init, store);
      UpsertPlacesOnce(Reseeded(base, init), e);
      SeededStep(Reseeded(base, init), base, HostsIn(init), StoredAll(store, init), e);
      assert HostsIn(made) == HostsIn(init) + [e.host];
    }
  }

  /** The last engine of `made` with a given host is the one stored under it. */
  lemma {:induction false} StoredLast(store: map<string, SearchEngine>, made: seq<SearchEngine>, i: int)
    requires 0 <= i < |made| && forall j :: i < j < |made| ==> made[j].host != made[i].host
    ensures made[i].host in StoredAll(store, made) && StoredAll(store, made)[made[i].host] == made[i]
  {
    if i < |made| - 1 {
      StoredLast(store, made[..|made| - 1], i);
    }
  }

  /** Writing `made` adds exactly its hosts, each holding one of its engines, and keeps every other entry. */
  lemma {:induction false} StoredAllSpec(store: map<string, SearchEngine>, made: seq<SearchEngine>)
    ensures forall h :: h in StoredAll(store, made) <==> h in store || h in HostsIn(made)
    ensures forall h :: h in store && h !in HostsIn(made) ==> StoredAll(store, made)[h] == store[h]
    ensures forall h :: h in HostsIn(made) ==> exists i :: 0 <= i < |made| && StoredAll(store, made)[h] == made[i]
  {
    if made != [] {
      var init := made[..|made| - 1];
      var e := made[|made| - 1];
      StoredAllSpec(store, init);
      assert HostsIn(made) == HostsIn(init) + [e.host];
      forall h | h in HostsIn(made) ensures exists i :: 0 <= i < |made| && StoredAll(store, made)[h] == made[i] {
        if h == e.host {
          assert StoredAll(store, made)[h] == made[|made| - 1];
        } else {
          var i :| 0 <= i < |init| && StoredAll(store, init)[h] == init[i];
          assert StoredAll(store, made)[h] == made[i];
        }
      }
    }
  }

  /** One more engine: one more upsert and one more write. */
  lemma FoldsSnoc(base: seq<Slot>, store: map<string, SearchEngine>, made: seq<SearchEngine>, e: SearchEngine)
    ensures Reseeded(base, made + [e]) == Upsert(Reseeded(base, made), e)
    ensures StoredAll(store, made + [e]) == StoredAll(store, made)[e.host := e]
  {
    assert (made + [e])[..|made|] == made;
  }
}
