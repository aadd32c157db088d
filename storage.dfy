/** The prefixed, expiring key-value store (src/utils/storage.ts). The
 *  storage engine (localStorage or sessionStorage) is a map from physical key
 *  to the record `set` wrote there; the clock is the `now` parameter. */
module Storage {
  import opened Wrappers
  import opened Strings

  const DefaultPrefix: string := "app_"

  /** The assumed capacity of the engine, 5 MB. */
  const MaxSize: int := 5 * 1024 * 1024

  /** The JSON text of `null`: `get` returns it as the JavaScript `null`. */
  const JsonNull: string := "null"

  /** A StorageData record: the value's JSON text, the time it was written,
   *  and the expiry in milliseconds, absent when `set` was given none. */
  datatype Entry = Entry(value: string, timestamp: int, expire: Option<int>)

  /** Decimal text of a non-negative integer. */
  function NatText(n: nat): (s: string)
    ensures |s| > 0
  {
    if n < 10 then ["0123456789"[n]] else NatText(n / 10) + ["0123456789"[n % 10]]
  }

  /** How `JSON.stringify` writes an integer. */
  function IntText(n: int): string {
    if n < 0 then "-" + NatText(-n) else NatText(n)
  }

  /** `JSON.stringify(data)` for a record, fields in insertion order. */
  function EntryText(e: Entry): (s: string)
    ensures |s| > 0 && s[0] == '{'
  {
    "{\"value\":" + e.value + ",\"timestamp\":" + IntText(e.timestamp)
    + (if e.expire.Some? then ",\"expire\":" + IntText(e.expire.value) else "") + "}"
  }

  /** `data.expire && now - data.timestamp > data.expire`: 0 and absence never expire. */
  predicate Expired(e: Entry, now: int) {
    e.expire.Some? && e.expire.value != 0 && now - e.timestamp > e.expire.value
  }

  /** What `get` returns for a physical key. */
  function Lookup(engine: map<string, Entry>, physical: string, now: int): Option<string> {
    if physical !in engine then None
    else if Expired(engine[physical], now) then None
    else Some(engine[physical].value)
  }

  /** The engine after `get`: an expired entry is removed. */
  function AfterLookup(engine: map<string, Entry>, physical: string, now: int): map<string, Entry> {
    if physical in engine && Expired(engine[physical], now) then engine - {physical} else engine
  }

  /** A value written with no expiry, expiry 0, or an expiry not yet passed is read back. */
  lemma SetThenGet(engine: map<string, Entry>, physical: string, value: string, expire: Option<int>, written: int, now: int)
    requires expire.None? || expire.value == 0 || now - written <= expire.value
    ensures Lookup(engine[physical := Entry(value, written, expire)], physical, now) == Some(value)
  {
  }

  /** Once the expiry has passed the value is gone. */
  lemma ExpiredGet(engine: map<string, Entry>, physical: string, value: string, expire: int, written: int, now: int)
    requires expire != 0 && now - written > expire
    ensures Lookup(engine[physical := Entry(value, written, Some(expire))], physical, now) == None
    ensures physical !in AfterLookup(engine[physical := Entry(value, written, Some(expire))], physical, now)
  {
  }

  /** Expiry never changes what a later read returns: after a read, any
   *  further read at the same time gives the same answer. */
  lemma LookupStable(engine: map<string, Entry>, physical: string, other: string, now: int)
    ensures Lookup(AfterLookup(engine, physical, now), other, now) == Lookup(engine, other, now)
  {
  }

  /** An expired entry is still present for `has` until a `get` removes it. */
  lemma HasIgnoresExpiry(engine: map<string, Entry>, physical: string, e: Entry, now: int)
    requires Expired(e, now)
    ensures physical in engine[physical := e]
    ensures Lookup(engine[physical := e], physical, now) == None
    ensures physical !in AfterLookup(engine[physical := e], physical, now)
  {
  }

  /** What `getSize` counts for one physical key: the `.length`, in UTF-16
   *  code units, of the key and of the stored text. */
  function Cost(engine: map<string, Entry>, k: string): int
    requires k in engine
  {
    Utf16Length(k) + Utf16Length(EntryText(engine[k]))
  }

  /** The total cost of a set of keys. */
  ghost function SizeOf(engine: map<string, Entry>, ks: set<string>): int
    requires ks <= engine.Keys
    decreases |ks|
  {
    if ks == {} then 0 else var k :| k in ks; Cost(engine, k) + SizeOf(engine, ks - {k})
  }

  /** SizeOf does not depend on which key it picks first. */
  lemma {:induction false} SizeOfPick(engine: map<string, Entry>, ks: set<string>, k: string)
    requires ks <= engine.Keys && k in ks
    ensures SizeOf(engine, ks) == Cost(engine, k) + SizeOf(engine, ks - {k})
    decreases |ks|
  {
    var j :| j in ks && SizeOf(engine, ks) == Cost(engine, j) + SizeOf(engine, ks - {j});
    if j != k {
      SizeOfPick(engine, ks - {j}, k);
      SizeOfPick(engine, ks - {k}, j);
      assert ks - {j} - {k} == ks - {k} - {j};
    }
  }

  function SeqSize(engine: map<string, Entry>, ks: seq<string>): int
    requires forall i :: 0 <= i < |ks| ==> ks[i] in engine
  {
    if ks == [] then 0 else SeqSize(engine, ks[..|ks| - 1]) + Cost(engine, ks[|ks| - 1])
  }

  /** Extending the list by one key adds that key's cost. */
  lemma SeqSizeSnoc(engine: map<string, Entry>, ks: seq<string>, i: nat)
    requires i < |ks| && forall j :: 0 <= j < |ks| ==> ks[j] in engine
    ensures SeqSize(engine, ks[..i + 1]) == SeqSize(engine, ks[..i]) + Cost(engine, ks[i])
  {
    assert ks[..i + 1][..i] == ks[..i];
  }

  predicate Distinct(ks: seq<string>) {
    forall i, j :: 0 <= i < j < |ks| ==> ks[i] != ks[j]
  }

  /** Summing a duplicate-free list of keys gives the size of their set. */
  lemma {:induction false} SeqSizeIsSizeOf(engine: map<string, Entry>, ks: seq<string>)
    requires forall i :: 0 <= i < |ks| ==> ks[i] in engine
    requires Distinct(ks)
    ensures SeqSize(engine, ks) == SizeOf(engine, set k | k in ks)
  {
    if ks != [] {
      var init, last := ks[..|ks| - 1], ks[|ks| - 1];
      SeqSizeIsSizeOf(engine, init);
      var s := set k | k in ks;
      assert (set k | k in init) == s - {last} by {
        forall k ensures k in init <==> k in s - {last} {
          if k in init {
            var i :| 0 <= i < |init| && init[i] == k;
            assert ks[i] == k;
          }
          if k in s - {last} {
            var i :| 0 <= i < |ks| && ks[i] == k;
            assert i != |ks| - 1;
            assert init[i] == k;
          }
        }
      }
      SizeOfPick(engine, s, last);
    }
  }

  /** The engine after `set` of each item in turn, all at time `now` with no expiry. */
  function SetAll(engine: map<string, Entry>, prefix: string, items: seq<(string, string)>, now: int): map<string, Entry>
    decreases |items|
  {
    if items == [] then engine
    else SetAll(engine[prefix + items[0].0 := Entry(items[0].1, now, None)], prefix, items[1..], now)
  }

  predicate DistinctKeys(items: seq<(string, string)>) {
    forall i, j :: 0 <= i < j < |items| ==> items[i].0 != items[j].0
  }

  /** The physical key `k` is written by none of the items. */
  predicate Untouched(k: string, prefix: string, items: seq<(string, string)>) {
    forall i :: 0 <= i < |items| ==> k != prefix + items[i].0
  }

  /** After a batch write every item reads back its own value, at any later
   *  time, and every key outside the batch is untouched. */
  lemma {:induction false} SetAllReads(engine: map<string, Entry>, prefix: string, items: seq<(string, string)>,
                                       now: int, later: int)
    requires DistinctKeys(items)
    ensures forall i :: 0 <= i < |items| ==>
              Lookup(SetAll(engine, prefix, items, now), prefix + items[i].0, later) == Some(items[i].1)
    ensures forall k :: Untouched(k, prefix, items) ==>
              (k in SetAll(engine, prefix, items, now) <==> k in engine) &&
              (k in engine ==> SetAll(engine, prefix, items, now)[k] == engine[k])
    decreases |items|
  {
    if items != [] {
      var next := engine[prefix + items[0].0 := Entry(items[0].1, now, None)];
      SetAllReads(next, prefix, items[1..], now, later);
      forall i | 0 <= i < |items|
        ensures Lookup(SetAll(engine, prefix, items, now), prefix + items[i].0, later) == Some(items[i].1)
      {
        if i > 0 {
          assert items[1..][i - 1] == items[i];
        } else {
          forall j | 0 <= j < |items[1..]| ensures prefix + items[0].0 != prefix + items[1..][j].0 {
            assert items[1..][j] == items[j + 1];
            assert items[0].0 == (prefix + items[0].0)[|prefix|..];
            assert items[j + 1].0 == (prefix + items[j + 1].0)[|prefix|..];
          }
        }
      }
      forall k | Untouched(k, prefix, items) ensures Untouched(k, prefix, items[1..]) {
        forall i | 0 <= i < |items[1..]| ensures k != prefix + items[1..][i].0 {
          assert items[1..][i] == items[i + 1];
        }
      }
    }
  }

  class EnhancedStorage {
    const prefix: string
    var engine: map<string, Entry>

    /** The prefix is the configured one unless that is empty, then 'app_'. */
    constructor (prefix: string, engine: map<string, Entry>)
      ensures this.prefix == (if prefix == "" then DefaultPrefix else prefix)
      ensures this.engine == engine
    {
      this.prefix := if prefix == "" then DefaultPrefix else prefix;
      this.engine := engine;
    }

    /** The physical key: the prefix followed by the key. */
    function GetKey(key: string): (k: string)
      ensures StartsWith(k, prefix) && k[|prefix|..] == key
    {
      prefix + key
    }

    /** The physical keys this instance owns. */
    function Owned(): set<string>
      reads this
    {
      set k | k in engine && StartsWith(k, prefix)
    }

    method Set(key: string, value: string, expire: Option<int>, now: int)
      modifies this
      ensures engine == old(engine)[GetKey(key) := Entry(value, now, expire)]
    {
      engine := engine[GetKey(key) := Entry(value, now, expire)];
    }

    /** Reads a value; an expired entry is removed and reads as null. */
    method Get(key: string, now: int) returns (r: Option<string>)
      modifies this
      ensures r == Lookup(old(engine), GetKey(key), now)
      ensures engine == AfterLookup(old(engine), GetKey(key), now)
    {
      var physical := GetKey(key);
      if physical !in engine {
        return None;
      }
      var data := engine[physical];
      if data.expire.Some? && data.expire.value != 0 && now - data.timestamp > data.expire.value {
        Remove(key);
        return None;
      }
      r := Some(data.value);
    }

    method Remove(key: string)
      modifies this
      ensures engine == old(engine) - {GetKey(key)}
    {
      engine := engine - {GetKey(key)};
    }

    /** Presence only; expiry is not consulted (see HasIgnoresExpiry). */
    function Has(key: string): (b: bool)
      reads this
      ensures b <==> GetKey(key) in engine
    {
      GetKey(key) in engine
    }

    /** Every physical key with this prefix, each once. */
    method Keys() returns (ks: seq<string>)
      ensures Distinct(ks)
      ensures forall k :: k in ks <==> k in Owned()
      ensures forall i :: 0 <= i < |ks| ==> ks[i] in engine
    {
      ks := [];
      var rest := engine.Keys;
      while rest != {}
        invariant rest <= engine.Keys
        invariant Distinct(ks)
        invariant forall k :: k in ks <==> k in engine && k !in rest && StartsWith(k, prefix)
        decreases rest
      {
        var k :| k in rest;
        if StartsWith(k, prefix) {
          ks := ks + [k];
        }
        rest := rest - {k};
      }
    }

    /** Removes exactly the keys with this prefix. */
    method Clear()
      modifies this
      ensures engine == map k | k in old(engine) && !StartsWith(k, prefix) :: old(engine)[k]
    {
      var ks := Keys();
      var i := 0;
      while i < |ks|
        invariant 0 <= i <= |ks|
        invariant engine == map k | k in old(engine) && k !in ks[..i] :: old(engine)[k]
      {
        engine := engine - {ks[i]};
        i := i + 1;
        assert ks[..i] == ks[..i - 1] + [ks[i - 1]];
      }
      assert ks[..i] == ks;
    }

    /** The sum, over the owned keys, of key length plus stored text length. */
    method GetSize() returns (size: int)
      ensures size == SizeOf(engine, Owned())
    {
      var ks := Keys();
      size := 0;
      var i := 0;
      while i < |ks|
        invariant 0 <= i <= |ks|
        invariant size == SeqSize(engine, ks[..i])
      {
        var key := ks[i];
        var value := EntryText(engine[key]);
        SeqSizeSnoc(engine, ks, i);
        if value != "" {
          size := size + Utf16Length(key) + Utf16Length(value);
        }
        i := i + 1;
      }
      assert ks[..i] == ks;
      ghost var listed := set k | k in ks;
      assert listed == Owned() by {
        forall k ensures k in listed <==> k in Owned() {
        }
      }
      SeqSizeIsSizeOf(engine, ks);
    }

    method GetRemainingSpace() returns (space: int)
      ensures space == 5 * 1024 * 1024 - SizeOf(engine, Owned())
    {
      var current := GetSize();
      space := MaxSize - current;
    }
  }

  /** `setWithExpire(key, value, minutes)`: the expiry in milliseconds. */
  method SetWithExpire(storage: EnhancedStorage, key: string, value: string, minutes: int, now: int)
    modifies storage
    ensures storage.engine == old(storage.engine)[storage.GetKey(key) := Entry(value, now, Some(minutes * 60000))]
  {
    storage.Set(key, value, Some(minutes * 60 * 1000), now);
  }

  /** `getOnce(key)`: the value `get` would return, after which the key is
   *  gone; a stored `null` reads as `null` and is therefore kept. */
  method GetOnce(storage: EnhancedStorage, key: string, now: int) returns (r: Option<string>)
    modifies storage
    ensures r == Lookup(old(storage.engine), storage.GetKey(key), now)
    ensures r != Some(JsonNull) ==> storage.engine == old(storage.engine) - {storage.GetKey(key)}
    ensures r == Some(JsonNull) ==> storage.engine == old(storage.engine)
  {
    r := storage.Get(key, now);
    if r != None && r != Some(JsonNull) {
      storage.Remove(key);
    }
  }

  /** A second `getOnce` of the same key finds nothing, unless the value is a
   *  stored `null`, which both calls return. */
  method GetOnceTwice(storage: EnhancedStorage, key: string, now: int) returns (first: Option<string>, second: Option<string>)
    modifies storage
    ensures first == Lookup(old(storage.engine), storage.GetKey(key), now)
    ensures first != Some(JsonNull) ==> second == None
    ensures first == Some(JsonNull) ==> second == first
  {
    first := GetOnce(storage, key, now);
    second := GetOnce(storage, key, now);
  }

  /** `setMultiple(items)`: a `set` with no expiry per entry, in order. */
  method SetMultiple(storage: EnhancedStorage, items: seq<(string, string)>, now: int)
    modifies storage
    ensures storage.engine == SetAll(old(storage.engine), storage.prefix, items, now)
  {
    var i := 0;
    while i < |items|
      invariant 0 <= i <= |items|
      invariant SetAll(old(storage.engine), storage.prefix, items, now) ==
                SetAll(storage.engine, storage.prefix, items[i..], now)
    {
      assert items[i..][1..] == items[i + 1..];
      storage.Set(items[i].0, items[i].1, None, now);
      i := i + 1;
    }
  }

  /** The engine with every expired record among the physical keys `read` removed. */
  function Purged(engine: map<string, Entry>, read: set<string>, now: int): (r: map<string, Entry>)
    ensures r.Keys <= engine.Keys
  {
    map k | k in engine && !(k in read && Expired(engine[k], now)) :: engine[k]
  }

  /** One more `get` extends the purge by its key. */
  lemma PurgedStep(engine: map<string, Entry>, read: set<string>, physical: string, now: int)
    ensures AfterLookup(Purged(engine, read, now), physical, now) == Purged(engine, read + {physical}, now)
  {
  }

  /** `getMultiple(keys)`: what `get` returns for each key, by key; the
   *  expired records among the requested keys are removed from the engine. */
  method GetMultiple(storage: EnhancedStorage, keys: seq<string>, now: int) returns (result: map<string, Option<string>>)
    modifies storage
    ensures result.Keys == set k | k in keys
    ensures forall k :: k in result ==> result[k] == Lookup(old(storage.engine), storage.GetKey(k), now)
    ensures storage.engine == Purged(old(storage.engine), set k | k in keys :: storage.GetKey(k), now)
  {
    result := map[];
    var i := 0;
    assert Purged(storage.engine, {}, now) == storage.engine;
    while i < |keys|
      invariant 0 <= i <= |keys|
      invariant result.Keys == set k | k in keys[..i]
      invariant forall k :: k in result ==> result[k] == Lookup(old(storage.engine), storage.GetKey(k), now)
      invariant forall k :: Lookup(storage.engine, k, now) == Lookup(old(storage.engine), k, now)
      invariant storage.engine == Purged(old(storage.engine), set k | k in keys[..i] :: storage.GetKey(k), now)
    {
      ghost var before := storage.engine;
      ghost var read := set k | k in keys[..i] :: storage.GetKey(k);
      var v := storage.Get(keys[i], now);
      forall k ensures Lookup(storage.engine, k, now) == Lookup(before, k, now) {
        LookupStable(before, storage.GetKey(keys[i]), k, now);
      }
      PurgedStep(old(storage.engine), read, storage.GetKey(keys[i]), now);
      result := result[keys[i] := v];
      i := i + 1;
      assert keys[..i] == keys[..i - 1] + [keys[i - 1]];
      assert (set k | k in keys[..i] :: storage.GetKey(k)) == read + {storage.GetKey(keys[i - 1])};
    }
    assert keys[..i] == keys;
  }
}
