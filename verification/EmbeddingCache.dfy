/**
 The process-wide cache of query embeddings: an ordered dictionary that keeps the most
 recently touched keys, and copies every list on its way in and out.
 */
module EmbeddingCache {
  import opened Graph

  type Embedding = seq<real>

  const MAX_PROCESS_EMBEDDINGS: nat := 128

  // ---------- touch order ----------

  /** `keys` without `key`. */
  function Without(keys: seq<string>, key: string): (r: seq<string>)
    ensures key !in r && |r| <= |keys|
    ensures forall k :: k in r <==> k in keys && k != key
  {
    if keys == [] then []
    else
      var front := Without(keys[..|keys| - 1], key);
      if keys[|keys| - 1] == key then front else front + [keys[|keys| - 1]]
  }

  /** The keys touched, each once, ordered by their last touch. */
  function Recent(touches: seq<string>): seq<string> {
    if touches == [] then []
    else Without(Recent(touches[..|touches| - 1]), touches[|touches| - 1]) + [touches[|touches| - 1]]
  }

  /** The last 128 of a list, or all of a shorter one. */
  function Newest(keys: seq<string>): seq<string> {
    if |keys| <= MAX_PROCESS_EMBEDDINGS then keys else keys[|keys| - MAX_PROCESS_EMBEDDINGS..]
  }

  /** At most 128 keys stay, and of more than those the oldest go. */
  lemma {:induction false} NewestMeans(keys: seq<string>)
    ensures |keys| <= 128 ==> Newest(keys) == keys
    ensures |keys| > 128 ==> |Newest(keys)| == 128 && exists dropped :: keys == dropped + Newest(keys)
  {
    if |keys| > 128 {
      assert keys == keys[..|keys| - 128] + Newest(keys);
    }
  }

  predicate TouchedLast(touches: seq<string>, key: string, at: int) {
    0 <= at < |touches| && touches[at] == key && forall j :: at < j < |touches| ==> touches[j] != key
  }

  ghost predicate Before(keys: seq<string>, x: string, y: string) {
    exists a, b :: 0 <= a < b < |keys| && keys[a] == x && keys[b] == y
  }

  lemma {:induction false} WithoutKeepsOrder(keys: seq<string>, key: string)
    requires Distinct(keys)
    ensures Distinct(Without(keys, key))
    ensures forall i, j :: 0 <= i < j < |Without(keys, key)| ==>
              Before(keys, Without(keys, key)[i], Without(keys, key)[j])
  {
    if keys != [] {
      var n := |keys| - 1;
      var front := Without(keys[..n], key);
      WithoutKeepsOrder(keys[..n], key);
      forall i, j | 0 <= i < j < |Without(keys, key)|
        ensures Before(keys, Without(keys, key)[i], Without(keys, key)[j])
      {
        if j < |front| {
          assert Before(keys[..n], front[i], front[j]);
          var a, b :| 0 <= a < b < n && keys[..n][a] == front[i] && keys[..n][b] == front[j];
          assert keys[a] == front[i] && keys[b] == front[j];
        } else {
          assert front[i] in keys[..n];
          var a :| 0 <= a < n && keys[..n][a] == front[i];
          assert keys[a] == front[i] && keys[n] == Without(keys, key)[j];
        }
      }
    }
  }

  /** The touched keys, each once, and a key comes before another iff its last touch did. */
  ghost predicate InTouchOrder(touches: seq<string>, keys: seq<string>) {
    && Distinct(keys)
    && (forall k :: k in keys <==> k in touches)
    && forall i, j, a, b ::
         0 <= i < j < |keys| && TouchedLast(touches, keys[i], a) && TouchedLast(touches, keys[j], b) ==> a < b
  }

  lemma {:induction false} RecentIsInTouchOrder(touches: seq<string>)
    ensures InTouchOrder(touches, Recent(touches))
  {
    if touches != [] {
      var n := |touches| - 1;
      var before, last := touches[..n], touches[n];
      var earlier := Recent(before);
      RecentIsInTouchOrder(before);
      WithoutKeepsOrder(earlier, last);
      var keys := Recent(touches);
      forall i, j, a, b |
        0 <= i < j < |keys| && TouchedLast(touches, keys[i], a) && TouchedLast(touches, keys[j], b)
        ensures a < b
      {
        assert a < n;
        assert TouchedLast(before, keys[i], a);
        if j < |keys| - 1 {
          assert b < n;
          assert TouchedLast(before, keys[j], b);
          assert Before(earlier, keys[i], keys[j]);
          var x, y :| 0 <= x < y < |earlier| && earlier[x] == keys[i] && earlier[y] == keys[j];
        }
      }
    }
  }

  // ---------- the cache follows the touches ----------

  /**
   Touching a key moves it to the end of the newest ones, and pushes out the oldest when it is new
   to a full cache.
   */
  lemma {:induction false} NewestAfterTouch(touches: seq<string>, key: string)
    ensures Newest(Recent(touches + [key])) == Newest(Without(Newest(Recent(touches)), key) + [key])
  {
    var keys := Recent(touches);
    assert (touches + [key])[..|touches|] == touches;
    if |keys| > MAX_PROCESS_EMBEDDINGS {
      var cut := |keys| - MAX_PROCESS_EMBEDDINGS;
      RecentIsInTouchOrder(touches);
      assert keys == keys[..cut] + keys[cut..];
      WithoutSplits(keys[..cut], keys[cut..], key);
      NewestOfSplit(keys[..cut], keys[cut..], key);
    }
  }

  lemma {:induction false} WithoutSplits(a: seq<string>, b: seq<string>, key: string)
    ensures Without(a + b, key) == Without(a, key) + Without(b, key)
  {
    if b == [] {
      assert a + b == a;
    } else {
      var n := |b| - 1;
      assert (a + b)[..|a + b| - 1] == a + b[..n];
      WithoutSplits(a, b[..n], key);
    }
  }

  /** A list of distinct keys loses one by `Without`, if the key is in it. */
  lemma {:induction false} WithoutLosesOne(keys: seq<string>, key: string)
    requires Distinct(keys)
    ensures key !in keys ==> Without(keys, key) == keys
    ensures key in keys ==> |Without(keys, key)| == |keys| - 1
  {
    if keys != [] {
      WithoutLosesOne(keys[..|keys| - 1], key);
    }
  }

  lemma {:induction false} NewestOfLong(older: seq<string>, newest: seq<string>)
    requires |newest| >= MAX_PROCESS_EMBEDDINGS
    ensures Newest(older + newest) == Newest(newest)
  {
  }

  lemma {:induction false} NewestOfSplit(older: seq<string>, newest: seq<string>, key: string)
    requires Distinct(older + newest) && |newest| == MAX_PROCESS_EMBEDDINGS
    ensures Newest(Without(older, key) + Without(newest, key) + [key]) == Newest(Without(newest, key) + [key])
  {
    assert forall i :: 0 <= i < |newest| ==> newest[i] == (older + newest)[|older| + i];
    assert forall i :: 0 <= i < |older| ==> older[i] == (older + newest)[i];
    WithoutLosesOne(newest, key);
    NewestOfLong(Without(older, key), Without(newest, key) + [key]);
    assert Without(older, key) + Without(newest, key) + [key] == Without(older, key) + (Without(newest, key) + [key]);
  }

  method Copy(a: array<real>) returns (b: array<real>)
    ensures fresh(b) && b[..] == a[..]
  {
    b := new real[a.Length](i requires 0 <= i < a.Length reads a => a[i]);
  }

  /** The ordered dictionary; its order is that of `order`, oldest touch first. */
  class ProcessCache {
    var entries: map<string, array<real>>
    var order: seq<string>
    ghost var touches: seq<string>

    /** The cached keys are the 128 most recently touched ones, in touch order. */
    ghost predicate Valid()
      reads this
    {
      (forall k :: k in order <==> k in entries) && order == Newest(Recent(touches))
    }

    ghost function Lists(): set<array<real>>
      reads this
    {
      set k | k in entries :: entries[k]
    }

    ghost function Contents(): map<string, Embedding>
      reads this, Lists()
    {
      map k | k in entries :: entries[k][..]
    }

    constructor ()
      ensures Valid() && entries == map[] && touches == []
    {
      entries, order, touches := map[], [], [];
    }

    /** Moves a cached key to the end. */
    method Touch(key: string)
      requires Valid() && key in entries
      modifies this`order, this`touches
      ensures Valid() && touches == old(touches) + [key]
    {
      KeptOrder(touches, key);
      order := Without(order, key) + [key];
      touches := touches + [key];
    }

    /** A fresh copy of the cached list, which counts as a touch; or nothing. */
    method Get(key: string) returns (r: array?<real>)
      requires Valid()
      modifies this
      ensures Valid() && entries == old(entries) && Contents() == old(Contents())
      ensures r == null <==> key !in entries
      ensures r != null ==> fresh(r) && r !in Lists() && r[..] == Contents()[key]
      ensures touches == old(touches) + if r == null then [] else [key]
    {
      if key !in entries {
        return null;
      }
      Touch(key);
      r := Copy(entries[key]);
    }

    /** Puts a copy of a list into the cache, and drops the oldest keys beyond the bound. */
    method Remember(key: string, embedding: array<real>)
      requires Valid()
      modifies this
      ensures Valid() && touches == old(touches) + [key]
      ensures key in entries && fresh(entries[key]) && entries[key][..] == embedding[..]
      ensures forall k :: k in entries && k != key ==> k in old(entries) && entries[k] == old(entries)[k]
      ensures forall list :: list in Lists() ==> list in old(Lists()) || fresh(list)
      ensures embedding !in old(Lists()) ==> embedding !in Lists()
    {
      NewestAfterTouch(touches, key);
      TouchedIsDistinct(touches, key);
      TouchedKeyIsNewest(touches, key);
      var copy := Copy(embedding);
      entries := entries[key := copy];
      order := Without(order, key) + [key];
      touches := touches + [key];
      EvictOldest();
    }

    method EvictOldest()
      requires Distinct(order) && forall k :: k in order <==> k in entries
      modifies this`order, this`entries
      ensures order == Newest(old(order))
      ensures forall k :: k in order <==> k in entries
      ensures forall k :: k in entries ==> k in old(entries) && entries[k] == old(entries)[k]
    {
      while |order| > MAX_PROCESS_EMBEDDINGS
        invariant Distinct(order)
        invariant forall k :: k in order <==> k in entries
        invariant forall k :: k in entries ==> k in old(entries) && entries[k] == old(entries)[k]
        invariant Newest(order) == Newest(old(order))
      {
        var oldest := order[0];
        assert order == [oldest] + order[1..];
        entries := entries - {oldest};
        order := order[1..];
      }
    }

    /** A cached key can be touched without pushing another one out. */
    lemma {:induction false} KeptOrder(before: seq<string>, key: string)
      requires key in Newest(Recent(before))
      ensures Without(Newest(Recent(before)), key) + [key] == Newest(Recent(before + [key]))
      ensures forall k :: k in Newest(Recent(before + [key])) <==> k in Newest(Recent(before))
    {
      NewestAfterTouch(before, key);
      TouchedIsDistinct(before, key);
      NewestIsDistinct(before);
      WithoutLosesOne(Newest(Recent(before)), key);
    }

    lemma {:induction false} NewestIsDistinct(before: seq<string>)
      ensures Distinct(Newest(Recent(before)))
    {
      RecentIsInTouchOrder(before);
    }

    lemma {:induction false} TouchedIsDistinct(before: seq<string>, key: string)
      ensures Distinct(Without(Newest(Recent(before)), key) + [key])
    {
      NewestIsDistinct(before);
      WithoutKeepsOrder(Newest(Recent(before)), key);
    }
  }

  /** No write to a list outside the cache changes what it holds. */
  twostate lemma OutsideWritesAreInvisible(cache: ProcessCache)
    requires cache.entries == old(cache.entries) && forall list :: list in old(cache.Lists()) ==> unchanged(list)
    ensures cache.Contents() == old(cache.Contents())
  {
    forall k | k in cache.entries ensures cache.entries[k][..] == old(cache.entries[k][..]) {
      assert cache.entries[k] in old(cache.Lists());
    }
  }

  method Overwrite(list: array<real>, values: seq<real>)
    requires |values| == list.Length
    modifies list
    ensures list[..] == values
  {
    for i := 0 to list.Length
      invariant list[..i] == values[..i]
    {
      list[i] := values[i];
    }
  }

  /**
   A list that was passed in, and one that came back, are outside the cache for good: whatever
   callers then write into them, the cached embedding stays what it was.
   */
  method CallersCannotChangeTheCache(cache: ProcessCache, key: string, given: array<real>, first: seq<real>,
                                     second: seq<real>)
    returns (again: array?<real>)
    requires cache.Valid() && given !in cache.Lists() && |first| == |second| == given.Length
    modifies cache, given
    ensures cache.Valid() && again != null && again[..] == old(given[..]) && given !in cache.Lists()
  {
    cache.Remember(key, given);
    TouchedKeyIsNewest(old(cache.touches), key);
    Overwrite(given, first);
    var got := cache.Get(key);
    Overwrite(got, second);
    again := cache.Get(key);
  }

  lemma {:induction false} TouchedKeyIsNewest(touches: seq<string>, key: string)
    ensures key in Newest(Recent(touches + [key]))
  {
    var keys := Recent(touches + [key]);
    assert (touches + [key])[..|touches|] == touches;
    assert keys[|keys| - 1] == key;
    var newest := Newest(keys);
    assert newest[|newest| - 1] == key;
  }
}
