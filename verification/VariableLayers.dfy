/** The layers of runtime variables a deployment merges, and which of them wins. */
module VariableLayers {
  import opened Text
  import opened Ordering
  import opened Variables

  const STACK: string := "__stack__"

  // ---- merging two layers ----

  /** The value a list gives a key: its last occurrence. */
  function Lookup(vs: seq<Variable>, key: string): Option<string> {
    if vs == [] then None
    else if vs[|vs| - 1].key == key then Some(vs[|vs| - 1].value)
    else Lookup(vs[..|vs| - 1], key)
  }

  /** Of every key the last occurrence. */
  function LastOfEach(vs: seq<Variable>): seq<Variable> {
    if vs == [] then []
    else Without(LastOfEach(vs[..|vs| - 1]), vs[|vs| - 1].key) + [vs[|vs| - 1]]
  }

  function Without(vs: seq<Variable>, key: string): (r: seq<Variable>)
    ensures forall v :: v in r <==> v in vs && v.key != key
    ensures DistinctKeys(KeyOf, vs) ==> DistinctKeys(KeyOf, r)
  {
    if vs == [] then []
    else if vs[0].key == key then Without(vs[1..], key)
    else
      assert forall v | v in Without(vs[1..], key) :: v in vs[1..];
      [vs[0]] + Without(vs[1..], key)
  }

  /** mergeRuntimeVariables: the second list wins, keys come out sorted and unique. */
  function Merge(a: seq<Variable>, b: seq<Variable>): seq<Variable> {
    SortBy(KeyOf, LastOfEach(a + b))
  }

  predicate Normal(vs: seq<Variable>) {
    SortedBy(KeyOf, vs) && DistinctKeys(KeyOf, vs)
  }

  lemma {:induction false} LookupMember(vs: seq<Variable>, v: Variable)
    requires DistinctKeys(KeyOf, vs)
    ensures v in vs <==> Lookup(vs, v.key) == Some(v.value)
  {
    if vs != [] {
      var init, last := vs[..|vs| - 1], vs[|vs| - 1];
      assert vs == init + [last];
      LookupMember(init, v);
      if v in init {
        var i :| 0 <= i < |init| && init[i] == v;
        assert KeyOf(vs[i]) != KeyOf(vs[|vs| - 1]);
      }
    }
  }

  lemma {:induction false} LastOfEachLookup(vs: seq<Variable>)
    ensures DistinctKeys(KeyOf, LastOfEach(vs))
    ensures forall v :: v in LastOfEach(vs) <==> Lookup(vs, v.key) == Some(v.value)
  {
    if vs != [] {
      LastOfEachLookup(vs[..|vs| - 1]);
    }
  }

  lemma {:induction false} LookupAppend(a: seq<Variable>, b: seq<Variable>, key: string)
    ensures Lookup(a + b, key) == if Lookup(b, key).Some? then Lookup(b, key) else Lookup(a, key)
    decreases |b|
  {
    if b == [] {
      assert a + b == a;
    } else {
      assert (a + b)[..|a + b| - 1] == a + b[..|b| - 1];
      LookupAppend(a, b[..|b| - 1], key);
    }
  }

  /** A merged list is sorted with unique keys, and gives each key the second list's value if it has one. */
  lemma MergeIsLayering(a: seq<Variable>, b: seq<Variable>)
    ensures Normal(Merge(a, b))
    ensures forall key ::
              Lookup(Merge(a, b), key) == if Lookup(b, key).Some? then Lookup(b, key) else Lookup(a, key)
  {
    var all := LastOfEach(a + b);
    LastOfEachLookup(a + b);
    SortPermutes(KeyOf, all);
    SortSorts(KeyOf, all);
    DistinctSurvives(KeyOf, all, Merge(a, b));
    SameMembers(all, Merge(a, b));
    forall key ensures Lookup(Merge(a, b), key) == if Lookup(b, key).Some? then Lookup(b, key) else Lookup(a, key) {
      LookupAppend(a, b, key);
      LookupAgrees(Merge(a, b), a + b, key);
    }
  }

  lemma LookupAgrees(vs: seq<Variable>, all: seq<Variable>, key: string)
    requires DistinctKeys(KeyOf, vs)
    requires forall v :: v in vs <==> Lookup(all, v.key) == Some(v.value)
    ensures Lookup(vs, key) == Lookup(all, key)
  {
    if Lookup(all, key).Some? {
      LookupMember(vs, Variable(key, Lookup(all, key).value));
    } else if Lookup(vs, key).Some? {
      LookupMember(vs, Variable(key, Lookup(vs, key).value));
    }
  }

  /** mergeRuntimeVariables, with the map and the key list it uses. */
  method MergeRuntimeVariables(lower: seq<Variable>, upper: seq<Variable>) returns (r: seq<Variable>)
    ensures r == Merge(lower, upper)
  {
    var byKey := FillByKey(map[], lower, []);
    assert [] + lower == lower;
    byKey := FillByKey(byKey, upper, lower);
    ghost var all := byKey;
    var unsorted: seq<Variable> := [];
    while byKey.Keys != {}
      invariant byKey.Keys <= all.Keys && forall k | k in byKey :: byKey[k] == all[k]
      invariant forall v :: v in unsorted <==> v.key in all && v.key !in byKey && all[v.key] == v.value
      invariant DistinctKeys(KeyOf, unsorted)
      decreases |byKey.Keys|
    {
      var key :| key in byKey;
      unsorted := unsorted + [Variable(key, byKey[key])];
      byKey := byKey - {key};
    }
    r := SortBy(KeyOf, unsorted);
    MergedAgrees(unsorted, lower + upper);
  }

  /** One loop over a list that overwrites what the map holds. */
  method FillByKey(
    byKey: map<string, string>, vs: seq<Variable>, ghost before: seq<Variable>) returns (r: map<string, string>)
    requires forall k :: (if k in byKey then Some(byKey[k]) else None) == Lookup(before, k)
    ensures forall k :: (if k in r then Some(r[k]) else None) == Lookup(before + vs, k)
  {
    r := byKey;
    assert before + vs[..0] == before;
    for i := 0 to |vs|
      invariant forall k :: (if k in r then Some(r[k]) else None) == Lookup(before + vs[..i], k)
    {
      assert (before + vs[..i + 1])[..|before| + i] == before + vs[..i];
      r := r[vs[i].key := vs[i].value];
    }
    assert vs[..|vs|] == vs;
  }

  lemma MergedAgrees(unsorted: seq<Variable>, all: seq<Variable>)
    requires DistinctKeys(KeyOf, unsorted)
    requires forall v :: v in unsorted <==> Lookup(all, v.key) == Some(v.value)
    ensures SortBy(KeyOf, unsorted) == SortBy(KeyOf, LastOfEach(all))
  {
    var other := LastOfEach(all);
    LastOfEachLookup(all);
    SameMultiset(KeyOf, unsorted, other);
    SortPermutes(KeyOf, unsorted);
    SortPermutes(KeyOf, other);
    SortSorts(KeyOf, unsorted);
    SortSorts(KeyOf, other);
    DistinctSurvives(KeyOf, unsorted, SortBy(KeyOf, unsorted));
    SortedIsUnique(KeyOf, SortBy(KeyOf, unsorted), SortBy(KeyOf, other));
  }

  // ---- the layers of a deployment ----

  /** A row of application_service_runtime_configs; `doppler` is what its scope returned, if it has one. */
  datatype Config = Config(service: string, direct: seq<Variable>, doppler: Option<seq<Variable>>)

  function MergeOptional(a: seq<Variable>, b: Option<seq<Variable>>): seq<Variable> {
    if b.Some? then Merge(a, b.value) else a
  }

  /** deploymentRuntimeVariables: project variables under the application's Doppler scope. */
  function Shared(project: seq<Variable>, doppler: Option<seq<Variable>>): seq<Variable> {
    MergeOptional(project, doppler)
  }

  function Over(base: seq<Variable>, c: Config): seq<Variable> {
    MergeOptional(Merge(base, c.direct), c.doppler)
  }

  /** The first loop: the stack's own row. */
  function StackVariables(shared: seq<Variable>, configs: seq<Config>): seq<Variable> {
    if configs == [] then shared
    else
      var c := configs[|configs| - 1];
      if c.service == STACK then Over(shared, c) else StackVariables(shared, configs[..|configs| - 1])
  }

  /** The second loop: one row per service over the stack's variables. */
  function ServiceVariables(
    stack: seq<Variable>, names: seq<string>, configs: seq<Config>): map<string, seq<Variable>> {
    if configs == [] then map name | name in names :: stack
    else
      var c, before := configs[|configs| - 1], ServiceVariables(stack, names, configs[..|configs| - 1]);
      if c.service == STACK then before else before[c.service := Over(stack, c)]
  }

  /** deploymentServiceRuntimeVariables. */
  function Services(shared: seq<Variable>, names: seq<string>, configs: seq<Config>): map<string, seq<Variable>> {
    ServiceVariables(StackVariables(shared, configs), names, configs)
  }

  /** Services are a primary key of the rows. */
  predicate UniqueServices(configs: seq<Config>) {
    forall i, j | 0 <= i < j < |configs| :: configs[i].service != configs[j].service
  }

  function RowOf(configs: seq<Config>, service: string): Option<Config> {
    if configs == [] then None
    else if configs[|configs| - 1].service == service then Some(configs[|configs| - 1])
    else RowOf(configs[..|configs| - 1], service)
  }

  /** The value of a key in the highest of two layers that defines it. */
  function Above(upper: Option<string>, lower: Option<string>): Option<string> {
    if upper.Some? then upper else lower
  }

  function OptionalLookup(vs: Option<seq<Variable>>, key: string): Option<string> {
    if vs.Some? then Lookup(vs.value, key) else None
  }

  /** What a row defines: its Doppler scope over its own variables. */
  function RowLookup(c: Option<Config>, key: string): Option<string> {
    if c.None? then None else Above(OptionalLookup(c.value.doppler, key), Lookup(c.value.direct, key))
  }

  lemma OverLookup(base: seq<Variable>, c: Config, key: string)
    ensures Lookup(Over(base, c), key) == Above(RowLookup(Some(c), key), Lookup(base, key))
  {
    MergeIsLayering(base, c.direct);
    if c.doppler.Some? {
      MergeIsLayering(Merge(base, c.direct), c.doppler.value);
    }
  }

  lemma {:induction false} StackIsRow(shared: seq<Variable>, configs: seq<Config>)
    ensures StackVariables(shared, configs) ==
              var c := RowOf(configs, STACK);
              if c.Some? then Over(shared, c.value) else shared
  {
    if configs != [] && configs[|configs| - 1].service != STACK {
      StackIsRow(shared, configs[..|configs| - 1]);
    }
  }

  lemma {:induction false} ServiceIsRow(stack: seq<Variable>, names: seq<string>, configs: seq<Config>, service: string)
    ensures var r, c := ServiceVariables(stack, names, configs), RowOf(configs, service);
            && (service in r <==> service in names || (service != STACK && c.Some?))
            && (service in r ==> r[service] == if service != STACK && c.Some? then Over(stack, c.value) else stack)
  {
    if configs != [] {
      ServiceIsRow(stack, names, configs[..|configs| - 1], service);
    }
  }

  /**
    For every service and key the value comes from the highest layer that defines
    it: generated, the service's Doppler scope, its own variables, the stack's
    Doppler scope, the stack's own, the application's Doppler scope, the project.
   */
  lemma HighestLayerWins(
    project: seq<Variable>, doppler: Option<seq<Variable>>, names: seq<string>, configs: seq<Config>,
    generated: seq<Variable>, service: string, key: string)
    requires service != STACK && service in Services(Shared(project, doppler), names, configs)
    ensures Lookup(Merge(Services(Shared(project, doppler), names, configs)[service], generated), key) ==
              Above(Lookup(generated, key),
                Above(RowLookup(RowOf(configs, service), key),
                  Above(RowLookup(RowOf(configs, STACK), key),
                    Above(OptionalLookup(doppler, key), Lookup(project, key)))))
  {
    var shared := Shared(project, doppler);
    var stack := StackVariables(shared, configs);
    if doppler.Some? {
      MergeIsLayering(project, doppler.value);
    }
    StackIsRow(shared, configs);
    var row := RowOf(configs, STACK);
    if row.Some? {
      OverLookup(shared, row.value, key);
    }
    ServiceIsRow(stack, names, configs, service);
    var own := RowOf(configs, service);
    if own.Some? {
      OverLookup(stack, own.value, key);
    }
    MergeIsLayering(Services(shared, names, configs)[service], generated);
  }

  lemma {:induction false} RowIsMember(configs: seq<Config>, service: string)
    ensures RowOf(configs, service).Some? ==>
      RowOf(configs, service).value in configs && RowOf(configs, service).value.service == service
    ensures (exists c :: c in configs && c.service == service) ==> RowOf(configs, service).Some?
  {
    if configs != [] {
      assert configs == configs[..|configs| - 1] + [configs[|configs| - 1]];
      RowIsMember(configs[..|configs| - 1], service);
    }
  }

  /** The order in which the rows are listed does not matter. */
  lemma RowOrderIsIrrelevant(shared: seq<Variable>, names: seq<string>, a: seq<Config>, b: seq<Config>)
    requires UniqueServices(a) && multiset(a) == multiset(b)
    ensures Services(shared, names, a) == Services(shared, names, b)
  {
    assert forall c :: c in a <==> c in b by {
      SameMembers(a, b);
    }
    forall service ensures RowOf(a, service) == RowOf(b, service) {
      RowIsMember(a, service);
      RowIsMember(b, service);
      UniqueRow(a, service);
    }
    StackIsRow(shared, a);
    StackIsRow(shared, b);
    var ra, rb := Services(shared, names, a), Services(shared, names, b);
    forall service ensures (service in ra <==> service in rb) && (service in ra ==> ra[service] == rb[service]) {
      ServiceIsRow(StackVariables(shared, a), names, a, service);
      ServiceIsRow(StackVariables(shared, b), names, b, service);
    }
    assert ra.Keys == rb.Keys;
  }

  lemma UniqueRow(configs: seq<Config>, service: string)
    requires UniqueServices(configs)
    ensures forall c, d | c in configs && d in configs && c.service == service && d.service == service :: c == d
  {
  }
}
