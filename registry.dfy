/**
 * `BrowserSearchEngines`: the tag index `_engines` (tag -> engine array) and
 * the persisted map `SimpleStorage.storage.engines` (host -> engine). Both
 * hold references to the same engine objects, so a tag appended to a stored
 * engine is seen through every array slot that holds that object.
 */
module Registry {
  import opened Wrappers
  import opened Engine
  import opened Buckets
  import opened Observer

  /** What `get` accepts: an engine (looked up by its host) or a host string. */
  datatype EngineRef = ByEngine(engine: SearchEngine) | ByHost(host: string)

  /** The key `getByTag` reads: a missing or empty tag means `_default`. */
  function TagKey(tag: Option<string>): (k: string)
    ensures tag.None? || tag.value == "" ==> k == DefaultTag
    ensures tag.Some? && tag.value != "" ==> k == tag.value
  {
    if tag.None? || tag.value == "" then DefaultTag else tag.value
  }

  /** The hosts of a list of system engines. */
  function HostsOf(engines: seq<SystemEngine>): (r: set<string>)
    ensures forall h :: h in r <==> exists k :: 0 <= k < |engines| && engines[k].host == h
  {
    set k | 0 <= k < |engines| :: engines[k].host
  }

  /** The hosts of a list of system engines, in list order. */
  function HostSeq(engines: seq<SystemEngine>): (r: seq<string>)
    ensures |r| == |engines| && forall k :: 0 <= k < |engines| ==> r[k] == engines[k].host
  {
    seq(|engines|, k requires 0 <= k < |engines| => engines[k].host)
  }

  /** `engines[k]` is the last of the first `n` engines with its host. */
  predicate LastWithHost(engines: seq<SystemEngine>, n: int, k: int) {
    0 <= k < n <= |engines| && forall k' :: k < k' < n ==> engines[k'].host != engines[k].host
  }

  class BrowserSearchEngines {
    /** `_engines`: each tag's array of engines, holes included. */
    var buckets: map<string, seq<Slot>>
    /** The order in which `for (t in _engines)` lists the tags: creation order. */
    var tagOrder: seq<string>
    /** `SimpleStorage.storage.engines`: the engines by host. */
    var storage: map<string, SearchEngine>

    /**
     * Every stored engine sits under its own host; no array lists a host
     * twice; the tag order lists each key of the index once.
     */
    ghost predicate Valid()
      reads this
    {
      && (forall h :: h in storage ==> storage[h].host == h)
      && (forall t :: t in buckets ==> HostsUnique(buckets[t]))
      && (forall t :: t in buckets <==> t in tagOrder)
      && Distinct(tagOrder)
    }

    /**
     * The constructor: with storage already persisted the index starts empty
     * (`_init` is not run); otherwise `_init` stores every visible system
     * engine and lists it once under `_default`.
     */
    constructor (saved: Option<map<string, SearchEngine>>, visible: seq<SystemEngine>)
      requires saved.Some? ==> forall h :: h in saved.value ==> saved.value[h].host == h
      ensures Valid()
      ensures saved.Some? ==> storage == saved.value && buckets == map[] && tagOrder == []
      ensures saved.None? ==> storage.Keys == HostsOf(visible) && buckets.Keys <= {DefaultTag}
      ensures saved.None? ==> forall h :: h in storage ==>
                fresh(storage[h]) && storage[h].tags == [DefaultTag] && DefaultOnce(buckets, storage[h])
      ensures saved.None? ==> forall k :: LastWithHost(visible, |visible|, k) ==> visible[k].host in storage && Mirrors(storage[visible[k].host], visible[k])
      ensures saved.None? ==> SeededFrom(BucketOr(buckets, DefaultTag), [], HostSeq(visible), storage)
      ensures saved.None? ==> tagOrder == if |visible| == 0 then [] else [DefaultTag]
    {
      buckets := map[];
      tagOrder := [];
      storage := if saved.Some? then saved.value else map[];
      new;
      if saved.None? {
        Init(visible);
      }
    }

    /**
     * `_init`: each visible system engine becomes a new engine tagged
     * `_default` and is added. Afterwards each of their hosts is stored with
     * such an engine and has exactly one slot in `_default`, holding it;
     * other tags and other stored hosts are as before.
     */
    method Init(visible: seq<SystemEngine>)
      requires Valid()
      modifies this
      ensures Valid()
      ensures storage.Keys == old(storage).Keys + HostsOf(visible)
      ensures forall h :: h in old(storage) && h !in HostsOf(visible) ==> storage[h] == old(storage)[h]
      ensures forall h :: h in HostsOf(visible) ==>
                fresh(storage[h]) && storage[h].tags == [DefaultTag] && DefaultOnce(buckets, storage[h])
      ensures SameExceptDefault(buckets, old(buckets))
      ensures forall k :: LastWithHost(visible, |visible|, k) ==> visible[k].host in storage && Mirrors(storage[visible[k].host], visible[k])
      ensures SeededFrom(BucketOr(buckets, DefaultTag), BucketOr(old(buckets), DefaultTag), HostSeq(visible), storage)
      ensures |visible| == 0 ==> buckets == old(buckets) && tagOrder == old(tagOrder)
      ensures |visible| > 0 ==> tagOrder == Enrolled(old(tagOrder), [DefaultTag])
    {
      var k := 0;
      ghost var base := BucketOr(buckets, DefaultTag);
      ghost var made: seq<SearchEngine> := [];
      while k < |visible|
        invariant 0 <= k <= |visible|
        invariant Valid()
        invariant k > 0 ==> DefaultTag in buckets
        invariant SameExceptDefault(buckets, old(buckets))
        invariant |made| == k
        invariant forall i :: 0 <= i < k ==> fresh(made[i]) && made[i].tags == [DefaultTag] && Mirrors(made[i], visible[i])
        invariant BucketOr(buckets, DefaultTag) == Reseeded(base, made)
        invariant storage == StoredAll(old(storage), made)
        invariant k == 0 ==> buckets == old(buckets) && tagOrder == old(tagOrder)
        invariant k > 0 ==> tagOrder == Enrolled(old(tagOrder), [DefaultTag])
      {
        ghost var previous := BucketOr(buckets, DefaultTag);
        ghost var order := tagOrder;
        var e := Seed(visible[k]);
        assert BucketOr(buckets, DefaultTag) == Upsert(previous, e);
        if k > 0 {
          assert [DefaultTag][..0] == [];
          assert DefaultTag in order;
        }
        ghost var next := made + [e];
        assert next[..k] == made && next[k] == e;
        FoldsSnoc(base, old(storage), made, e);
        forall i | 0 <= i < k + 1
          ensures fresh(next[i]) && next[i].tags == [DefaultTag] && Mirrors(next[i], visible[i])
        {
          if i < k {
            assert next[i] == made[i];
          }
        }
        made := next;
        k := k + 1;
      }
      InitStorage(visible, made, old(storage), storage);
      InitDefault(visible, made, base, old(storage), buckets, storage);
      forall h | h in HostsOf(visible) ensures fresh(storage[h]) && storage[h].tags == [DefaultTag] {
        var i :| 0 <= i < |made| && storage[h] == made[i];
      }
    }

    /** The hosts `_init` writes are exactly those of the visible engines. */
    static lemma SameHosts(visible: seq<SystemEngine>, made: seq<SearchEngine>)
      requires |made| == |visible| && forall i :: 0 <= i < |made| ==> Mirrors(made[i], visible[i])
      ensures HostsIn(made) == HostSeq(visible)
      ensures forall h :: h in HostsOf(visible) <==> h in HostsIn(made)
    {
      assert HostsIn(made) == HostSeq(visible);
      forall h | h in HostsOf(visible) ensures h in HostsIn(made) {
        var i :| 0 <= i < |visible| && visible[i].host == h;
        assert HostsIn(made)[i] == h;
      }
    }

    /** The storage `_init` leaves: the old entries, plus one new engine per visible host. */
    static lemma InitStorage(visible: seq<SystemEngine>, made: seq<SearchEngine>,
                             stored: map<string, SearchEngine>, storage: map<string, SearchEngine>)
      requires |made| == |visible| && forall i :: 0 <= i < |made| ==> Mirrors(made[i], visible[i])
      requires storage == StoredAll(stored, made)
      ensures storage.Keys == stored.Keys + HostsOf(visible)
      ensures forall h :: h in stored && h !in HostsOf(visible) ==> storage[h] == stored[h]
      ensures forall h :: h in HostsOf(visible) ==> exists i :: 0 <= i < |made| && storage[h] == made[i]
    {
      StoredAllSpec(stored, made);
      SameHosts(visible, made);
    }

    /** The `_default` array `_init` leaves, read off the two folds its loop keeps. */
    static lemma InitDefault(visible: seq<SystemEngine>, made: seq<SearchEngine>, base: seq<Slot>,
                             stored: map<string, SearchEngine>, buckets: map<string, seq<Slot>>, storage: map<string, SearchEngine>)
      requires |made| == |visible| && forall i :: 0 <= i < |made| ==> Mirrors(made[i], visible[i])
      requires HostsUnique(base) && forall x :: x in stored ==> stored[x].host == x
      requires BucketOr(buckets, DefaultTag) == Reseeded(base, made) && storage == StoredAll(stored, made)
      requires |made| > 0 ==> DefaultTag in buckets
      ensures forall h :: h in HostsOf(visible) ==> h in storage && DefaultOnce(buckets, storage[h])
      ensures forall k :: LastWithHost(visible, |visible|, k) ==> visible[k].host in storage && Mirrors(storage[visible[k].host], visible[k])
      ensures SeededFrom(BucketOr(buckets, DefaultTag), base, HostSeq(visible), storage)
    {
      ReseededSpec(base, made, stored);
      SameHosts(visible, made);
      forall i | LastWithHost(visible, |visible|, i)
        ensures visible[i].host in storage && Mirrors(storage[visible[i].host], visible[i])
      {
        StoredLast(stored, made, i);
      }
      forall h | h in HostsOf(visible) ensures h in storage && DefaultOnce(buckets, storage[h]) {
        SeededOnce(BucketOr(buckets, DefaultTag), base, HostSeq(visible), storage, h);
      }
    }

    /** One step of `_init`: a new `_default` engine mirroring `system` is added. */
    method Seed(system: SystemEngine) returns (e: SearchEngine)
      requires Valid()
      modifies this
      ensures Valid()
      ensures fresh(e) && e.tags == [DefaultTag] && Mirrors(e, system)
      ensures storage == old(storage)[e.host := e]
      ensures buckets == old(buckets)[DefaultTag := Upsert(BucketOr(old(buckets), DefaultTag), e)]
      ensures tagOrder == Enrolled(old(tagOrder), [DefaultTag])
      ensures DefaultOnce(buckets, e)
      ensures SameExceptDefault(buckets, old(buckets))
      ensures forall h :: h in old(storage) && h != e.host && DefaultOnce(old(buckets), old(storage)[h]) ==>
                DefaultOnce(buckets, storage[h])
    {
      e := new SearchEngine.FromSystem(system, [DefaultTag]);
      ghost var before := buckets;
      ghost var stored := storage;
      Add(e);
      assert [DefaultTag][..0] == [];
      SeedStep(before, stored, buckets, storage, e);
    }

    /** One step of `_init`: the new engine takes its host's single `_default` slot; earlier hosts keep theirs. */
    static lemma SeedStep(before: map<string, seq<Slot>>, stored: map<string, SearchEngine>,
                          after: map<string, seq<Slot>>, storedAfter: map<string, SearchEngine>, e: SearchEngine)
      requires forall t :: t in before ==> HostsUnique(before[t])
      requires forall h :: h in stored ==> stored[h].host == h
      requires after == UpsertTags(before, [DefaultTag], e) && e.tags == [DefaultTag]
      requires storedAfter == stored[e.host := e]
      ensures SameExceptDefault(after, before)
      ensures DefaultOnce(after, e)
      ensures forall h :: h in stored && h != e.host && DefaultOnce(before, stored[h]) ==>
                DefaultOnce(after, storedAfter[h])
    {
      UpsertTagsSpec(before, [DefaultTag], e);
      var b := BucketOr(before, DefaultTag);
      UpsertPlacesOnce(b, e);
      forall h | h in stored && h != e.host && DefaultOnce(before, stored[h])
        ensures DefaultOnce(after, storedAfter[h])
      {
        var i :| OnlySlot(before[DefaultTag], i, stored[h]);
        UpsertKeepsOthers(b, e, i, stored[h]);
      }
    }

    /**
     * The `tags` getter: every key of the tag index, each once, in creation order.
     */
    method Tags() returns (r: seq<string>)
      requires Valid()
      ensures forall t :: t in r <==> t in buckets
      ensures Distinct(r)
      ensures r == tagOrder
    {
      r := [];
      for i := 0 to |tagOrder|
        invariant r == tagOrder[..i]
      {
        r := r + [tagOrder[i]];
      }
    }

    /** The loop of `_updateTags`: the first slot holding an engine with `host`, holes skipped. */
    static method Locate(bucket: seq<Slot>, host: string) returns (at: Option<nat>)
      ensures at == FindHost(bucket, host)
    {
      at := None;
      var i := 0;
      while i < |bucket|
        invariant 0 <= i <= |bucket|
        invariant forall j :: 0 <= j < i ==> !Holds(bucket[j], host)
      {
        if bucket[i].Filled? && bucket[i].engine.host == host {
          assert FindHost(bucket, host) == Some(i);
          return Some(i);
        }
        i := i + 1;
      }
    }

    /**
     * `_updateTags(tag, e)`: create the tag's array if missing, then replace
     * the first slot holding `e`'s host with `e`, or push `e` if there is none.
     */
    method UpdateTags(tag: string, e: SearchEngine)
      requires Valid()
      modifies this
      ensures Valid()
      ensures buckets == old(buckets)[tag := Upsert(BucketOr(old(buckets), tag), e)]
      ensures tagOrder == if tag in old(tagOrder) then old(tagOrder) else old(tagOrder) + [tag]
      ensures storage == old(storage)
    {
      if tag !in buckets {
        buckets := buckets[tag := []];
        tagOrder := tagOrder + [tag];
      }
      var bucket := buckets[tag];
      assert bucket == BucketOr(old(buckets), tag);
      var at := Locate(bucket, e.host);
      var updated := if at.Some? then bucket[at.value := Filled(e)] else bucket + [Filled(e)];
      assert updated == Upsert(bucket, e);
      UpsertPlacesOnce(bucket, e);
      assert buckets[tag := updated] == old(buckets)[tag := updated];
      buckets := buckets[tag := updated];
    }

    /**
     * `add(e)`: `_updateTags` for each of the engine's tags, then store the
     * engine under its host. Arrays of tags the engine does not carry are
     * left alone, even when they still hold an older engine with this host.
     */
    method Add(e: SearchEngine)
      requires Valid()
      modifies this
      ensures Valid()
      ensures buckets == UpsertTags(old(buckets), e.tags, e)
      ensures tagOrder == Enrolled(old(tagOrder), e.tags)
      ensures storage == old(storage)[e.host := e]
    {
      var i := 0;
      while i < |e.tags|
        invariant 0 <= i <= |e.tags|
        invariant Valid()
        invariant buckets == UpsertTags(old(buckets), e.tags[..i], e)
        invariant tagOrder == Enrolled(old(tagOrder), e.tags[..i])
        invariant storage == old(storage)
      {
        assert e.tags[..i + 1] == e.tags[..i] + [e.tags[i]];
        UpsertTagsSnoc(old(buckets), e.tags[..i], e.tags[i], e);
        EnrolledSnoc(old(tagOrder), e.tags[..i], e.tags[i]);
        UpdateTags(e.tags[i], e);
        i := i + 1;
      }
      assert e.tags[..|e.tags|] == e.tags;
      storage := storage[e.host := e];
    }

    /**
     * `_onAdd` and `_onChange`: mirror a system engine as a new engine
     * tagged `_found` only, and add it.
     */
    method Found(system: SystemEngine)
      requires Valid()
      modifies this
      ensures Valid()
      ensures system.host in storage && fresh(storage[system.host])
      ensures storage[system.host].tags == [FoundTag] && Mirrors(storage[system.host], system)
      ensures storage == old(storage)[system.host := storage[system.host]]
      ensures buckets == UpsertTags(old(buckets), [FoundTag], storage[system.host])
      ensures tagOrder == Enrolled(old(tagOrder), [FoundTag])
    {
      var e := new SearchEngine.FromSystem(system, [FoundTag]);
      Add(e);
    }

    /**
     * A notification of the search service, as the registry sees it: only the
     * `added` and `changed` events have a listener here; `removed` and
     * `current` leave the registry as it is.
     */
    method OnSystemEvent(subject: string, system: SystemEngine)
      requires Valid()
      modifies this
      ensures Valid()
      ensures Classify(subject, system.hidden) in {Some(Added), Some(Changed)} ==>
                system.host in storage && fresh(storage[system.host]) && storage[system.host].tags == [FoundTag] &&
                Mirrors(storage[system.host], system) &&
                storage == old(storage)[system.host := storage[system.host]] &&
                buckets == UpsertTags(old(buckets), [FoundTag], storage[system.host]) &&
                tagOrder == Enrolled(old(tagOrder), [FoundTag])
      ensures Classify(subject, system.hidden) !in {Some(Added), Some(Changed)} ==>
                storage == old(storage) && buckets == old(buckets) && tagOrder == old(tagOrder)
    {
      var event := Classify(subject, system.hidden);
      if event == Some(Added) || event == Some(Changed) {
        Found(system);
      }
    }

    /**
     * `addTagByHost(tag, host)`: the stored engine gets `tag` appended and is
     * upserted into that tag's array. An unknown host throws before anything
     * changes (`ok` is false).
     */
    method AddTagByHost(tag: string, host: string) returns (ok: bool)
      requires Valid()
      modifies this, if host in storage then {storage[host]} else {}
      ensures Valid()
      ensures ok <==> host in old(storage)
      ensures storage == old(storage)
      ensures ok ==> storage[host].tags == old(storage[host].tags) + [tag]
      ensures ok ==> buckets == old(buckets)[tag := Upsert(BucketOr(old(buckets), tag), storage[host])]
      ensures ok ==> tagOrder == if tag in old(tagOrder) then old(tagOrder) else old(tagOrder) + [tag]
      ensures !ok ==> buckets == old(buckets) && tagOrder == old(tagOrder)
    {
      if host !in storage {
        return false;
      }
      var e := storage[host];
      e.AppendTag(tag);
      UpdateTags(tag, e);
      ok := true;
    }

    /**
     * `removeTagByHost(tag, host)`: the stored engine drops `tag` (its first
     * occurrence, or its last tag if it lacks `tag`), and the first slot of
     * the tag's array holding the host becomes a hole. The array keeps its
     * length; a missing array or slot is no error. An unknown host throws
     * before anything changes (`ok` is false).
     */
    method RemoveTagByHost(tag: string, host: string) returns (ok: bool)
      requires Valid()
      modifies this, if host in storage then {storage[host]} else {}
      ensures Valid()
      ensures ok <==> host in old(storage)
      ensures storage == old(storage) && tagOrder == old(tagOrder)
      ensures ok ==> storage[host].tags == WithoutTag(old(storage[host].tags), tag)
      ensures ok && tag in old(buckets) ==> buckets == old(buckets)[tag := HoleFirst(old(buckets)[tag], host)]
      ensures !ok || tag !in old(buckets) ==> buckets == old(buckets)
    {
      if host !in storage {
        return false;
      }
      var e := storage[host];
      e.RemoveTag(tag);
      ok := true;
      if tag in buckets {
        var bucket := buckets[tag];
        var i := 0;
        while i < |bucket|
          invariant 0 <= i <= |bucket|
          invariant forall j :: 0 <= j < i ==> !Holds(bucket[j], host)
          invariant buckets == old(buckets)
        {
          if bucket[i].Filled? && bucket[i].engine.host == e.host {
            assert FindHost(bucket, host) == Some(i);
            buckets := buckets[tag := bucket[i := Hole]];
            break;
          }
          i := i + 1;
        }
        HoleFirstSpec(bucket, host);
      }
    }

    /** `remove(e)`: only the stored entry for the engine's host goes; the tag index is not touched. */
    method Remove(e: SearchEngine)
      requires Valid()
      modifies this
      ensures Valid()
      ensures storage == old(storage) - {e.host}
      ensures buckets == old(buckets) && tagOrder == old(tagOrder)
    {
      storage := storage - {e.host};
    }

    /** `get`: the stored engine for an engine's host, or for a host string. */
    function Get(ref: EngineRef): (r: Option<SearchEngine>)
      requires Valid()
      reads this
      ensures var key := if ref.ByEngine? then ref.engine.host else ref.host;
              (r.Some? <==> key in storage) && (r.Some? ==> r.value == storage[key] && r.value.host == key)
    {
      var key := if ref.ByEngine? then ref.engine.host else ref.host;
      if key in storage then Some(storage[key]) else None
    }

    /** `getByTag(tag)`: the tag's array (`_default` when no tag is given), never with a host twice; none for an unknown tag. */
    function GetByTag(tag: Option<string>): (r: Option<seq<Slot>>)
      requires Valid()
      reads this
      ensures r.Some? <==> TagKey(tag) in buckets
      ensures r.Some? ==> r.value == buckets[TagKey(tag)] && HostsUnique(r.value)
    {
      var key := TagKey(tag);
      if key in buckets then Some(buckets[key]) else None
    }

    /**
     * `getSubmission(engine, terms)`: the stored engine's query URL filled in
     * with the terms and the geolocated address; none when the engine is not
     * stored (the source throws).
     */
    function GetSubmission(ref: EngineRef, terms: string, geoAddress: string, enc: string -> string): (r: Option<string>)
      requires Valid()
      reads this
      ensures r.Some? <==> Get(ref).Some?
      ensures r.Some? ==> r.value == GetURL(Get(ref).value.queryURL, terms, geoAddress, enc)
    {
      match Get(ref)
      case None => None
      case Some(e) => Some(e.GetSubmission(terms, geoAddress, geoAddress, enc))
    }
  }
}
