/** remix/app/utils/kv.server.ts: `cacheable`, a read-through cache in front
    of the shared key-value namespace `CACHE`. A stored value that parses
    to something truthy is returned as is; anything else counts as a miss,
    and the computed result is then stored unless the caller's options say
    `cacheable: false`. */
module Kv {
  import opened Strings

  /** A value as `JSON.parse` gives it back. */
  datatype Json =
    | JNull
    | JBool(b: bool)
    | JNumber(n: real)
    | JString(s: string)
    | JArray(items: seq<Json>)
    | JObject(fields: map<string, Json>)

  /** JavaScript truthiness of a parsed value: `null`, `false`, `0` and `""`
      are falsy; arrays and objects, even empty, are truthy. */
  predicate Truthy(v: Json) {
    match v
    case JNull => false
    case JBool(b) => b
    case JNumber(n) => n != 0.0
    case JString(s) => s != ""
    case JArray(_) => true
    case JObject(_) => true
  }

  /** The options `CACHE.put` receives besides the value. */
  datatype PutOptions = PutOptions(expiration: Option<int>, expirationTtl: Option<int>)

  /** `KVOptions`: `cacheable` is optional. */
  datatype KvOptions = KvOptions(cacheable: Option<bool>, put: PutOptions)

  /** The third argument: absent, a fixed options object, or a function of
      the computed result. */
  datatype Controller =
    | NoController
    | Fixed(options: KvOptions)
    | Computed(decide: Json -> KvOptions)

  /** What one entry of the namespace holds. */
  datatype Stored = Stored(value: Json, options: PutOptions)

  /** The options in force for a computed result: `controller ?? {}`, or
      what the function returns. */
  function OptionsFor(controller: Controller, result: Json): KvOptions {
    match controller
    case NoController => KvOptions(None, PutOptions(None, None))
    case Fixed(options) => options
    case Computed(decide) => decide(result)
  }

  /** `const { cacheable = true, ...option } = ...`: storing is the default. */
  predicate ShouldStore(options: KvOptions) {
    match options.cacheable
    case None => true
    case Some(flag) => flag
  }

  /** The outcome of one `cacheable(org, key, controller)` call on a
      namespace holding `entries`, when `org` would produce `computed`: the
      value returned, whether `org` ran, and the namespace afterwards. */
  datatype Outcome = Outcome(result: Json, called: bool, entries: map<string, Stored>)

  /** A hit: a stored value that is truthy. */
  predicate Hit(entries: map<string, Stored>, key: string) {
    key in entries && Truthy(entries[key].value)
  }

  function Cached(entries: map<string, Stored>, computed: Json, key: string, controller: Controller): Outcome {
    if Hit(entries, key) then Outcome(entries[key].value, false, entries)
    else
      var options := OptionsFor(controller, computed);
      if ShouldStore(options) then Outcome(computed, true, entries[key := Stored(computed, options.put)])
      else Outcome(computed, true, entries)
  }

  /** The shared namespace. */
  class KvStore {
    var entries: map<string, Stored>

    constructor(initial: map<string, Stored>)
      ensures entries == initial
    {
      entries := initial;
    }

    /** `CACHE.get(key, 'json')`: the stored value, or `null` when there is
        none. */
    method Get(key: string) returns (v: Json)
      ensures v == if key in entries then entries[key].value else JNull
    {
      v := if key in entries then entries[key].value else JNull;
    }

    /** `CACHE.put(key, JSON.stringify(value), options)` */
    method Put(key: string, value: Json, options: PutOptions)
      modifies this
      ensures entries == old(entries)[key := Stored(value, options)]
    {
      entries := entries[key := Stored(value, options)];
    }

    /** `cacheable(org, key, controller)`, where `org` would produce
        `computed`. */
    method Cacheable(computed: Json, key: string, controller: Controller) returns (r: Json, called: bool)
      modifies this
      ensures Outcome(r, called, entries) == Cached(old(entries), computed, key, controller)
    {
      var cache := Get(key);
      if Truthy(cache) {
        return cache, false;
      }
      r := computed;
      called := true;
      var options := OptionsFor(controller, r);
      if ShouldStore(options) {
        Put(key, r, options.put);
      }
    }
  }

  // ---------------------------------------------------------------------------
  // Properties

  /** A truthy stored value is returned without running `org` and without
      writing. */
  lemma HitReturnsStored(entries: map<string, Stored>, computed: Json, key: string, controller: Controller)
    requires key in entries && Truthy(entries[key].value)
    ensures var o := Cached(entries, computed, key, controller);
      o.result == entries[key].value && !o.called && o.entries == entries
  {
  }

  /** A stored `null`, `false`, `0` or `""` is a miss like a missing key:
      the call behaves as if the key were absent. */
  lemma FalsyIsMiss(entries: map<string, Stored>, computed: Json, key: string, controller: Controller)
    requires key in entries && !Truthy(entries[key].value)
    ensures var o := Cached(entries, computed, key, controller);
      var absent := Cached(entries - {key}, computed, key, controller);
      && o.result == absent.result && o.called == absent.called
      && o.entries - {key} == absent.entries - {key}
  {
    var options := OptionsFor(controller, computed);
    if !ShouldStore(options) {
      assert Cached(entries - {key}, computed, key, controller).entries == entries - {key};
    } else {
      assert entries[key := Stored(computed, options.put)] - {key} == entries - {key};
      assert (entries - {key})[key := Stored(computed, options.put)] - {key} == entries - {key};
    }
  }

  /** On a miss `org` runs and its result is returned; the result is stored
      under the key exactly when the options allow it, which they do unless
      they say `cacheable: false`, and no other key changes. */
  lemma MissComputes(entries: map<string, Stored>, computed: Json, key: string, controller: Controller)
    requires !Hit(entries, key)
    ensures var o := Cached(entries, computed, key, controller);
      var options := OptionsFor(controller, computed);
      && o.result == computed && o.called
      && (forall k :: k != key ==> (k in o.entries <==> k in entries))
      && (forall k :: k != key && k in entries ==> o.entries[k] == entries[k])
      && (ShouldStore(options) <==> options.cacheable != Some(false))
      && (ShouldStore(options) ==> key in o.entries && o.entries[key] == Stored(computed, options.put))
      && (!ShouldStore(options) ==> o.entries == entries)
  {
  }

  /** Without options the result is stored; a later call with any `org`
      then hits and returns it, provided it is truthy. */
  lemma StoredThenHit(entries: map<string, Stored>, computed: Json, other: Json, key: string)
    requires !Hit(entries, key) && Truthy(computed)
    ensures var first := Cached(entries, computed, key, NoController);
      var second := Cached(first.entries, other, key, NoController);
      && second.result == computed && !second.called && second.entries == first.entries
  {
  }
}
