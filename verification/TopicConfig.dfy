/**
 The proxy's cache of topic configurations (nisshi-proxy/src/topic.rs, `ResourceConfig` and
 `TopicConfigService::add_topic_configuration`), with the names of its keys
 (nisshi-sans-io/src/topic_config.rs). The first value that is put for a name stays.
 */
module TopicConfig {
  import opened Prelude

  type Configuration<V> = map<string, map<string, V>>

  datatype Put<V> = Put(resource: string, name: string, value: V)

  datatype ConfigEntry = ConfigEntry(name: string, value: Option<string>, configType: Option<int>)

  datatype ConfigResult = ConfigResult(errorCode: i16, resourceType: int, resourceName: string, configs: Option<seq<ConfigEntry>>)

  const TOPIC_RESOURCE := 2

  /** The keys that have an alias, with their aliases. The prefix of generated columns is not one of them. */
  const ALIASES := map[
    "nisshi.batch" := "tansu.batch",
    "nisshi.batch.timeout_ms" := "tansu.batch.timeout_ms",
    "nisshi.batch.max_records" := "tansu.batch.max_records",
    "nisshi.lake.sink" := "tansu.lake.sink",
    "nisshi.lake.partition" := "tansu.lake.partition",
    "nisshi.lake.z_order" := "tansu.lake.z_order",
    "nisshi.lake.normalize" := "tansu.lake.normalize",
    "nisshi.lake.normalize.separator" := "tansu.lake.normalize.separator",
    "nisshi.schema.validation" := "tansu.schema.validation",
    "nisshi.virtual" := "tansu.virtual"]

  // ------------------------------------------------------------------ what is stored

  function Stored<V>(c: Configuration<V>, resource: string, name: string): Option<V> {
    if resource in c && name in c[resource] then Some(c[resource][name]) else None
  }

  /** `put`. */
  function PutOne<V>(c: Configuration<V>, put: Put<V>): Configuration<V> {
    var names := if put.resource in c then c[put.resource] else map[];
    c[put.resource := if put.name in names then names else names[put.name := put.value]]
  }

  function PutAll<V>(c: Configuration<V>, puts: seq<Put<V>>): Configuration<V> {
    if puts == [] then c
    else
      var n := |puts| - 1;
      PutOne(PutAll(c, puts[..n]), puts[n])
  }

  /** The values that are put for one name, in order. */
  function ValuesFor<V>(puts: seq<Put<V>>, resource: string, name: string): seq<V> {
    if puts == [] then []
    else
      var n := |puts| - 1;
      var before := ValuesFor(puts[..n], resource, name);
      if puts[n].resource == resource && puts[n].name == name then before + [puts[n].value] else before
  }

  /** Over any sequence of puts, the stored value of a name is what it was, or else the first one put. */
  lemma {:induction false} FirstPutStays<V>(c: Configuration<V>, puts: seq<Put<V>>, resource: string, name: string)
    ensures
      var values := ValuesFor(puts, resource, name);
      Stored(PutAll(c, puts), resource, name)
      == if Stored(c, resource, name).Some? then Stored(c, resource, name)
         else if values == [] then None
         else Some(values[0])
  {
    if puts != [] {
      FirstPutStays(c, puts[..|puts| - 1], resource, name);
    }
  }

  // ------------------------------------------------------------------ lookups

  /** `get`: the value of the key, or else that of its alias. */
  function Lookup<V>(c: Configuration<V>, resource: string, key: string): Option<V> {
    if Stored(c, resource, key).Some? then Stored(c, resource, key)
    else if key in ALIASES then Stored(c, resource, ALIASES[key])
    else None
  }

  /**
   A lookup depends only on the first value that was put for the key, or else on the first one that
   was put for its alias. So puts for other names, and the order among different names, do not matter.
   */
  lemma LookupOfPuts<V>(puts: seq<Put<V>>, resource: string, key: string)
    ensures
      var own := ValuesFor(puts, resource, key);
      var aliased := if key in ALIASES then ValuesFor(puts, resource, ALIASES[key]) else [];
      Lookup(PutAll(map[], puts), resource, key)
      == if own != [] then Some(own[0]) else if aliased != [] then Some(aliased[0]) else None
  {
    FirstPutStays(map[], puts, resource, key);
    if key in ALIASES {
      FirstPutStays(map[], puts, resource, ALIASES[key]);
    }
  }

  /** Two interleavings of the same puts, name by name, give the same cache. */
  lemma InterleavingsAgree<V>(a: seq<Put<V>>, b: seq<Put<V>>)
    requires forall resource, name :: ValuesFor(a, resource, name) == ValuesFor(b, resource, name)
    ensures PutAll(map[], a) == PutAll(map[], b)
  {
    var ca, cb: Configuration<V> := PutAll(map[], a), PutAll(map[], b);
    forall resource, name ensures Stored(ca, resource, name) == Stored(cb, resource, name) {
      FirstPutStays(map[], a, resource, name);
      FirstPutStays(map[], b, resource, name);
    }
    PutsNamed(a);
    PutsNamed(b);
    SameStored(ca, cb);
  }

  lemma SameStored<V>(ca: Configuration<V>, cb: Configuration<V>)
    requires forall resource, name :: Stored(ca, resource, name) == Stored(cb, resource, name)
    requires AllNamed(ca) && AllNamed(cb)
    ensures ca == cb
  {
    forall resource ensures resource in ca <==> resource in cb {
      if resource in ca {
        var name :| name in ca[resource];
        assert Stored(cb, resource, name).Some?;
      }
      if resource in cb {
        var name :| name in cb[resource];
        assert Stored(ca, resource, name).Some?;
      }
    }
    forall resource | resource in ca ensures ca[resource] == cb[resource] {
      forall name ensures name in ca[resource] <==> name in cb[resource] {
        assert Stored(ca, resource, name) == Stored(cb, resource, name);
      }
      forall name | name in ca[resource] ensures ca[resource][name] == cb[resource][name] {
        assert Stored(ca, resource, name) == Stored(cb, resource, name);
      }
    }
  }

  ghost predicate AllNamed<V>(c: Configuration<V>) {
    forall resource :: resource in c ==> exists name :: name in c[resource]
  }

  lemma {:induction false} PutsNamed<V>(puts: seq<Put<V>>)
    ensures AllNamed(PutAll(map[], puts))
  {
    if puts != [] {
      var n := |puts| - 1;
      var before, after: Configuration<V> := PutAll(map[], puts[..n]), PutAll(map[], puts);
      PutsNamed(puts[..n]);
      forall resource | resource in after ensures exists name :: name in after[resource] {
        if resource == puts[n].resource {
          assert puts[n].name in after[resource];
        } else {
          var name :| name in before[resource];
          assert name in after[resource];
        }
      }
    }
  }

  /**
   More puts change a lookup only where the key itself had no value: a value of the key is final, and
   one that its alias supplied lasts until the key is put.
   */
  lemma LookupAfterMore<V>(c: Configuration<V>, puts: seq<Put<V>>, resource: string, key: string)
    requires Lookup(c, resource, key).Some?
    ensures Lookup(PutAll(c, puts), resource, key) == Lookup(c, resource, key)
            <==> || Stored(c, resource, key).Some?
                 || ValuesFor(puts, resource, key) == []
                 || Some(ValuesFor(puts, resource, key)[0]) == Lookup(c, resource, key)
  {
    FirstPutStays(c, puts, resource, key);
    if key in ALIASES {
      FirstPutStays(c, puts, resource, ALIASES[key]);
    }
  }

  // ------------------------------------------------------------------ the cache

  /** The puts that one result of a DescribeConfigs response calls for. */
  function EntryPuts<V>(convert: (string, int) -> V, resource: string, entries: seq<ConfigEntry>): seq<Put<V>> {
    if entries == [] then []
    else
      var n := |entries| - 1;
      var before := EntryPuts(convert, resource, entries[..n]);
      if entries[n].value.Some? && entries[n].configType.Some? then
        before + [Put(resource, entries[n].name, convert(entries[n].value.value, entries[n].configType.value))]
      else before
  }

  predicate Usable(result: ConfigResult) {
    result.errorCode == NO_ERROR && result.resourceType == TOPIC_RESOURCE && result.configs.Some?
  }

  function ResultPuts<V>(convert: (string, int) -> V, results: seq<ConfigResult>): seq<Put<V>> {
    if results == [] then []
    else
      var n := |results| - 1;
      var before := ResultPuts(convert, results[..n]);
      if Usable(results[n]) then before + EntryPuts(convert, results[n].resourceName, results[n].configs.value) else before
  }

  lemma {:induction false} PutAllConcat<V>(c: Configuration<V>, a: seq<Put<V>>, b: seq<Put<V>>)
    ensures PutAll(c, a + b) == PutAll(PutAll(c, a), b)
  {
    if b == [] {
      assert a + b == a;
    } else {
      var n := |b| - 1;
      PutAllConcat(c, a, b[..n]);
      assert (a + b)[..|a| + n] == a + b[..n];
    }
  }

  lemma {:induction false} ValuesForConcat<V>(a: seq<Put<V>>, b: seq<Put<V>>, resource: string, name: string)
    ensures ValuesFor(a + b, resource, name) == ValuesFor(a, resource, name) + ValuesFor(b, resource, name)
  {
    if b == [] {
      assert a + b == a;
    } else {
      var n := |b| - 1;
      assert (a + b)[..|a| + n] == a + b[..n];
      ValuesForConcat(a, b[..n], resource, name);
    }
  }

  /** Entry `j` has a typed value for `name`. */
  predicate HasValue(entries: seq<ConfigEntry>, name: string, j: nat) {
    j < |entries| && entries[j].name == name && entries[j].value.Some? && entries[j].configType.Some?
  }

  /** Result `i` is for the topic `resource`, without an error, and its entry `j` has a typed value for `name`. */
  predicate Supplies(results: seq<ConfigResult>, resource: string, name: string, i: nat, j: nat) {
    && i < |results| && results[i].errorCode == 0 && results[i].resourceType == 2 && results[i].resourceName == resource
    && results[i].configs.Some? && HasValue(results[i].configs.value, name, j)
  }

  /** No entry before it supplies a value for `name`. */
  ghost predicate SuppliesFirst(results: seq<ConfigResult>, resource: string, name: string, i: nat, j: nat) {
    && Supplies(results, resource, name, i, j)
    && forall k: nat, l: nat :: Supplies(results, resource, name, k, l) ==> i < k || (i == k && j <= l)
  }

  function ValueAt<V>(convert: (string, int) -> V, entries: seq<ConfigEntry>, j: nat): V
    requires j < |entries| && entries[j].value.Some? && entries[j].configType.Some?
  {
    convert(entries[j].value.value, entries[j].configType.value)
  }

  /** No entry before `j` has a value for `name`, and `j` does. */
  ghost predicate HasFirst(entries: seq<ConfigEntry>, name: string, j: nat) {
    HasValue(entries, name, j) && forall l: nat :: l < j ==> !HasValue(entries, name, l)
  }

  lemma EntryValuesSnoc<V>(convert: (string, int) -> V, resource: string, entries: seq<ConfigEntry>, name: string)
    requires entries != []
    ensures
      var n := |entries| - 1;
      ValuesFor(EntryPuts(convert, resource, entries), resource, name)
      == ValuesFor(EntryPuts(convert, resource, entries[..n]), resource, name)
         + if HasValue(entries, name, n) then [ValueAt(convert, entries, n)] else []
  {
    var n := |entries| - 1;
    var before := EntryPuts(convert, resource, entries[..n]);
    if entries[n].value.Some? && entries[n].configType.Some? {
      var put := Put(resource, entries[n].name, ValueAt(convert, entries, n));
      assert EntryPuts(convert, resource, entries) == before + [put];
      assert (before + [put])[..|before|] == before;
    }
  }

  lemma HasValueButLast(entries: seq<ConfigEntry>, name: string)
    requires entries != []
    ensures forall j: nat :: j < |entries| - 1 ==> (HasValue(entries, name, j) <==> HasValue(entries[..|entries| - 1], name, j))
  {
  }

  /** The first value that the entries of one result put for `name`. */
  lemma {:induction false} EntryValues<V>(convert: (string, int) -> V, resource: string, entries: seq<ConfigEntry>,
                                          name: string)
    ensures
      var values := ValuesFor(EntryPuts(convert, resource, entries), resource, name);
      && (values == [] <==> forall j: nat :: !HasValue(entries, name, j))
      && (values != [] ==> exists j: nat :: HasFirst(entries, name, j) && values[0] == ValueAt(convert, entries, j))
  {
    if entries != [] {
      var n := |entries| - 1;
      EntryValues(convert, resource, entries[..n], name);
      EntryValuesSnoc(convert, resource, entries, name);
      HasValueButLast(entries, name);
      var before := ValuesFor(EntryPuts(convert, resource, entries[..n]), resource, name);
      if before != [] {
        var j: nat :| HasFirst(entries[..n], name, j) && before[0] == ValueAt(convert, entries[..n], j);
        assert HasFirst(entries, name, j) && before[0] == ValueAt(convert, entries, j);
      } else if HasValue(entries, name, n) {
        assert HasFirst(entries, name, n);
      }
    }
  }

  lemma {:induction false} EntriesOfOther<V>(convert: (string, int) -> V, other: string, entries: seq<ConfigEntry>,
                                             resource: string, name: string)
    requires other != resource
    ensures ValuesFor(EntryPuts(convert, other, entries), resource, name) == []
  {
    if entries != [] {
      EntriesOfOther(convert, other, entries[..|entries| - 1], resource, name);
    }
  }

  lemma SuppliesButLast(results: seq<ConfigResult>, resource: string, name: string, i: nat, j: nat)
    requires i < |results| - 1
    ensures Supplies(results, resource, name, i, j) <==> Supplies(results[..|results| - 1], resource, name, i, j)
  {
  }

  /** The values that the last result puts for `name`. */
  function LastValues<V>(convert: (string, int) -> V, results: seq<ConfigResult>, resource: string,
                         name: string): seq<V>
    requires results != []
  {
    var r := results[|results| - 1];
    if Usable(r) then ValuesFor(EntryPuts(convert, r.resourceName, r.configs.value), resource, name) else []
  }

  lemma LastValuesAre<V>(convert: (string, int) -> V, results: seq<ConfigResult>, resource: string, name: string)
    requires results != []
    ensures
      var n, values := |results| - 1, LastValues(convert, results, resource, name);
      && (values == [] <==> forall j: nat :: !Supplies(results, resource, name, n, j))
      && (values != [] ==>
            exists j: nat :: && Supplies(results, resource, name, n, j)
                             && values[0] == ValueAt(convert, results[n].configs.value, j)
                             && forall l: nat :: Supplies(results, resource, name, n, l) ==> j <= l)
  {
    var n := |results| - 1;
    if Usable(results[n]) {
      if results[n].resourceName == resource {
        EntryValues(convert, resource, results[n].configs.value, name);
        forall j: nat ensures Supplies(results, resource, name, n, j) <==> HasValue(results[n].configs.value, name, j) {
        }
      } else {
        EntriesOfOther(convert, results[n].resourceName, results[n].configs.value, resource, name);
      }
    }
  }

  ghost predicate IsFirst<V>(convert: (string, int) -> V, results: seq<ConfigResult>, resource: string,
                             name: string, v: V) {
    exists i: nat, j: nat :: SuppliesFirst(results, resource, name, i, j) && v == ValueAt(convert, results[i].configs.value, j)
  }

  ghost predicate NoneSupplies(results: seq<ConfigResult>, resource: string, name: string) {
    forall i: nat, j: nat :: !Supplies(results, resource, name, i, j)
  }

  lemma FirstBefore<V>(convert: (string, int) -> V, results: seq<ConfigResult>, resource: string, name: string, v: V)
    requires results != [] && IsFirst(convert, results[..|results| - 1], resource, name, v)
    ensures IsFirst(convert, results, resource, name, v)
  {
    var n := |results| - 1;
    var i: nat, j: nat :| SuppliesFirst(results[..n], resource, name, i, j) && v == ValueAt(convert, results[..n][i].configs.value, j);
    forall k: nat, l: nat | Supplies(results, resource, name, k, l) ensures i < k || (i == k && j <= l) {
      if k < n {
        SuppliesButLast(results, resource, name, k, l);
      }
    }
    SuppliesButLast(results, resource, name, i, j);
    assert SuppliesFirst(results, resource, name, i, j);
  }

  lemma FirstLast<V>(convert: (string, int) -> V, results: seq<ConfigResult>, resource: string, name: string)
    requires results != [] && NoneSupplies(results[..|results| - 1], resource, name)
    ensures
      var values := LastValues(convert, results, resource, name);
      && (values == [] <==> NoneSupplies(results, resource, name))
      && (values != [] ==> IsFirst(convert, results, resource, name, values[0]))
  {
    var n, values := |results| - 1, LastValues(convert, results, resource, name);
    LastValuesAre(convert, results, resource, name);
    forall k: nat, l: nat | Supplies(results, resource, name, k, l) ensures k == n {
      if k < n {
        SuppliesButLast(results, resource, name, k, l);
      }
    }
    if values != [] {
      var j: nat :| && Supplies(results, resource, name, n, j) && values[0] == ValueAt(convert, results[n].configs.value, j)
                    && forall l: nat :: Supplies(results, resource, name, n, l) ==> j <= l;
      assert SuppliesFirst(results, resource, name, n, j);
    }
  }

  /** The first value that a response puts for a name, if it puts one. */
  lemma {:induction false} ResultValues<V>(convert: (string, int) -> V, results: seq<ConfigResult>,
                                           resource: string, name: string)
    ensures
      var values := ValuesFor(ResultPuts(convert, results), resource, name);
      && (values == [] <==> NoneSupplies(results, resource, name))
      && (values != [] ==> IsFirst(convert, results, resource, name, values[0]))
  {
    if results != [] {
      var n := |results| - 1;
      ResultValues(convert, results[..n], resource, name);
      var before := ValuesFor(ResultPuts(convert, results[..n]), resource, name);
      if Usable(results[n]) {
        ValuesForConcat(ResultPuts(convert, results[..n]), EntryPuts(convert, results[n].resourceName, results[n].configs.value),
                        resource, name);
      }
      assert ValuesFor(ResultPuts(convert, results), resource, name) == before + LastValues(convert, results, resource, name);
      if before != [] {
        FirstBefore(convert, results, resource, name, before[0]);
        var i: nat, j: nat :| SuppliesFirst(results, resource, name, i, j);
        assert !NoneSupplies(results, resource, name);
      } else {
        FirstLast(convert, results, resource, name);
      }
    }
  }

  /**
   What a DescribeConfigs response does to the cache: a name keeps the value that it has, and otherwise gets
   that of the first entry for it with a value and a type, among the results for its topic without an error.
   */
  lemma StoredAfterResponse<V>(convert: (string, int) -> V, c: Configuration<V>, results: seq<ConfigResult>,
                               resource: string,
                               name: string)
    ensures
      var after := Stored(PutAll(c, ResultPuts(convert, results)), resource, name);
      if Stored(c, resource, name).Some? then after == Stored(c, resource, name)
      else if NoneSupplies(results, resource, name) then after == None
      else after.Some? && IsFirst(convert, results, resource, name, after.value)
  {
    FirstPutStays(c, ResultPuts(convert, results), resource, name);
    ResultValues(convert, results, resource, name);
  }

  class ResourceConfig<V(==)> {
    var configuration: Configuration<V>

    constructor ()
      ensures configuration == map[]
    {
      configuration := map[];
    }

    method PutValue(resource: string, name: string, value: V)
      modifies this
      ensures configuration == PutOne(old(configuration), Put(resource, name, value))
    {
      if resource !in configuration {
        configuration := configuration[resource := map[]];
      }
      if name !in configuration[resource] {
        configuration := configuration[resource := configuration[resource][name := value]];
      }
    }

    method PutEntries(convert: (string, int) -> V, resource: string, entries: seq<ConfigEntry>)
      modifies this
      ensures configuration == PutAll(old(configuration), EntryPuts(convert, resource, entries))
    {
      var i := 0;
      while i < |entries|
        invariant 0 <= i <= |entries|
        invariant configuration == PutAll(old(configuration), EntryPuts(convert, resource, entries[..i]))
      {
        assert entries[..i + 1][..i] == entries[..i];
        if entries[i].value.Some? && entries[i].configType.Some? {
          var value := convert(entries[i].value.value, entries[i].configType.value);
          var before := EntryPuts(convert, resource, entries[..i]);
          assert (before + [Put(resource, entries[i].name, value)])[..|before|] == before;
          PutValue(resource, entries[i].name, value);
        }
        i := i + 1;
      }
      assert entries[..i] == entries;
    }

    /** `add_topic_configuration`. */
    method AddTopicConfiguration(convert: (string, int) -> V, results: seq<ConfigResult>)
      modifies this
      ensures configuration == PutAll(old(configuration), ResultPuts(convert, results))
    {
      var i := 0;
      while i < |results|
        invariant 0 <= i <= |results|
        invariant configuration == PutAll(old(configuration), ResultPuts(convert, results[..i]))
      {
        assert results[..i + 1][..i] == results[..i];
        if Usable(results[i]) {
          PutEntries(convert, results[i].resourceName, results[i].configs.value);
          PutAllConcat(old(configuration), ResultPuts(convert, results[..i]),
                       EntryPuts(convert, results[i].resourceName, results[i].configs.value));
        }
        i := i + 1;
      }
      assert results[..i] == results;
    }

    /** `ResourceConfigValueMatcher`: some topic of the request has `value` for `key`. */
    method Matches(names: seq<string>, key: string, value: V) returns (r: bool)
      ensures r <==> exists i :: 0 <= i < |names| && Lookup(configuration, names[i], key) == Some(value)
    {
      r := false;
      var i := 0;
      while i < |names|
        invariant 0 <= i <= |names|
        invariant !r
        invariant forall j :: 0 <= j < i ==> Lookup(configuration, names[j], key) != Some(value)
      {
        if Lookup(configuration, names[i], key) == Some(value) {
          return true;
        }
        i := i + 1;
      }
    }
  }
}
