/**
 * Dependencies between attributes: an attribute option may depend on the
 * values other rows hold (`dependsOn`). This module models the lookups over
 * that graph, the transitive clearing of dependent values when an upstream
 * value changes, the per-attribute option cache and loading flags, and the
 * update that ties them together.
 */
module FilterWithDependencies {
  import opened JsValues
  import opened FilterTypes
  import opened FilterUtils
  import opened FilterLogic
  import opened FetchHelpers

  // ---------------------------------------------------------------------------
  // The dependsOn graph
  // ---------------------------------------------------------------------------

  /** The keys an option depends on (none when `dependsOn` is absent). */
  function DependsOn(o: AttributeOption): (ds: seq<string>)
    ensures o.dependsOn.Some? ==> ds == o.dependsOn.value
    ensures o.dependsOn.None? ==> ds == []
  {
    if o.dependsOn.Some? then o.dependsOn.value else []
  }

  /** `opt.dependsOn?.includes(key)` */
  predicate DependsOnKey(o: AttributeOption, key: string)
  {
    key in DependsOn(o)
  }

  /** `clearOnDependencyChange !== false`: clearing is the default. */
  predicate Clears(o: AttributeOption)
  {
    o.clearOnDependencyChange != Some(false)
  }

  /** `conditions.find(c => c.attribute === key)` */
  function FirstWithAttribute(cs: seq<Condition>, key: string): (r: Option<Condition>)
    ensures r.None? <==> forall i :: 0 <= i < |cs| ==> cs[i].attribute != key
    ensures r.Some? ==> exists i :: 0 <= i < |cs| && cs[i] == r.value && r.value.attribute == key
                          && forall j :: 0 <= j < i ==> cs[j].attribute != key
  {
    if cs == [] then None
    else if cs[0].attribute == key then Some(cs[0])
    else
      var r := FirstWithAttribute(cs[1..], key);
      assert forall i :: 1 <= i < |cs| ==> cs[i] == cs[1..][i - 1];
      r
  }

  /** The value a dependency contributes: the first row's value for that key, when truthy. */
  function DepValue(cs: seq<Condition>, key: string): (r: Option<Value>)
    ensures r.Some? <==> FirstWithAttribute(cs, key).Some? && Truthy(FirstWithAttribute(cs, key).value.value)
    ensures r.Some? ==> r.value == FirstWithAttribute(cs, key).value.value && Truthy(r.value)
  {
    match FirstWithAttribute(cs, key)
    case Some(c) => if Truthy(c.value) then Some(c.value) else None
    case None => None
  }

  /** The record filled for the first `|ds|` dependency keys. */
  function DependencyEntries(ds: seq<string>, cs: seq<Condition>): seq<Entry<Value>>
  {
    if ds == [] then []
    else
      var init := DependencyEntries(ds[..|ds| - 1], cs);
      var d := ds[|ds| - 1];
      match DepValue(cs, d)
      case Some(v) => Put(init, d, v)
      case None => init
  }

  /** `getDependencyValues(attribute)` as a value. */
  function DependencyValues(options: seq<AttributeOption>, cs: seq<Condition>, attribute: string): (r: Value)
    ensures r.Obj?
  {
    match FindOption(options, attribute)
    case None => Obj([])
    case Some(o) => if o.dependsOn.None? then Obj([]) else Obj(DependencyEntries(o.dependsOn.value, cs))
  }

  /**
   * The record holds exactly the dependency keys whose first row has a
   * truthy value, mapped to that value.
   */
  lemma {:induction false} DependencyEntriesLookup(ds: seq<string>, cs: seq<Condition>, key: string)
    ensures Lookup(DependencyEntries(ds, cs), key) == if key in ds then DepValue(cs, key) else None
  {
    if ds != [] {
      var p := ds[..|ds| - 1];
      var d := ds[|ds| - 1];
      DependencyEntriesLookup(p, cs, key);
      assert key in ds <==> key in p || key == d;
      if DepValue(cs, d).Some? {
        PutLookup(DependencyEntries(p, cs), d, DepValue(cs, d).value, key);
      }
    }
  }

  /** `getDependencyValues`: the record is filled key by key. */
  method GetDependencyValues(options: seq<AttributeOption>, cs: seq<Condition>, attribute: string)
    returns (r: Value)
    ensures r == DependencyValues(options, cs, attribute)
  {
    var option := FindOption(options, attribute);
    if option.None? || option.value.dependsOn.None? {
      return Obj([]);
    }
    var ds := option.value.dependsOn.value;
    var entries: seq<Entry<Value>> := [];
    var i := 0;
    while i < |ds|
      invariant 0 <= i <= |ds|
      invariant entries == DependencyEntries(ds[..i], cs)
    {
      assert ds[..i + 1][..i] == ds[..i];
      var condition := FirstWithAttribute(cs, ds[i]);
      if condition.Some? && Truthy(condition.value.value) {
        entries := Put(entries, ds[i], condition.value.value);
      }
      i := i + 1;
    }
    assert ds[..i] == ds;
    return Obj(entries);
  }

  /** The values hold no key outside `dependsOn`, and each key inside it exactly when its first row is truthy. */
  lemma DependencyValuesLookup(options: seq<AttributeOption>, cs: seq<Condition>, attribute: string, key: string)
    ensures FindOption(options, attribute).None? || FindOption(options, attribute).value.dependsOn.None? ==>
      DependencyValues(options, cs, attribute) == Obj([])
    ensures FindOption(options, attribute).Some? ==>
      Lookup(DependencyValues(options, cs, attribute).entries, key) ==
        if key in DependsOn(FindOption(options, attribute).value) then DepValue(cs, key) else None
  {
    var option := FindOption(options, attribute);
    if option.Some? && option.value.dependsOn.Some? {
      DependencyEntriesLookup(option.value.dependsOn.value, cs, key);
    }
  }

  /** `condition?.value && condition.value !== ""` for the first row with the key. */
  predicate DepSatisfied(cs: seq<Condition>, key: string)
  {
    FirstWithAttribute(cs, key).Some? && Truthy(FirstWithAttribute(cs, key).value.value)
    && FirstWithAttribute(cs, key).value.value != Str("")
  }

  /** `areDependenciesSatisfied(attribute)` */
  predicate AreDependenciesSatisfied(options: seq<AttributeOption>, cs: seq<Condition>, attribute: string)
  {
    match FindOption(options, attribute)
    case None => true
    case Some(o) =>
      o.dependsOn.None? || |o.dependsOn.value| == 0
      || forall i :: 0 <= i < |o.dependsOn.value| ==> DepSatisfied(cs, o.dependsOn.value[i])
  }

  /**
   * Satisfied exactly when every dependency key has a value in
   * `getDependencyValues`: the extra `!== ""` test adds nothing.
   */
  lemma SatisfiedIffAllValues(options: seq<AttributeOption>, cs: seq<Condition>, attribute: string)
    ensures AreDependenciesSatisfied(options, cs, attribute) <==>
      forall key :: key in DependsOnOf(options, attribute) ==>
        Lookup(DependencyValues(options, cs, attribute).entries, key).Some?
  {
    var option := FindOption(options, attribute);
    if option.Some? && option.value.dependsOn.Some? {
      var ds := option.value.dependsOn.value;
      forall key | key in ds
        ensures Lookup(DependencyValues(options, cs, attribute).entries, key) == DepValue(cs, key)
        ensures DepValue(cs, key).Some? <==> DepSatisfied(cs, key)
      {
        DependencyValuesLookup(options, cs, attribute, key);
      }
      assert DependsOnOf(options, attribute) == ds;
      assert (forall i :: 0 <= i < |ds| ==> DepSatisfied(cs, ds[i])) <==> (forall key :: key in ds ==> DepSatisfied(cs, key));
    }
  }

  /** The keys the option for `attribute` depends on, none when there is no such option. */
  function DependsOnOf(options: seq<AttributeOption>, attribute: string): seq<string>
  {
    match FindOption(options, attribute)
    case None => []
    case Some(o) => DependsOn(o)
  }

  /** `getDependentAttributes(key)`: the options depending on `key`, in declaration order. */
  function GetDependentAttributes(options: seq<AttributeOption>, key: string): (r: seq<AttributeOption>)
    ensures |r| <= |options|
    ensures forall i :: 0 <= i < |r| ==> r[i] in options && DependsOnKey(r[i], key)
  {
    if options == [] then []
    else
      var init := GetDependentAttributes(options[..|options| - 1], key);
      var o := options[|options| - 1];
      assert forall x :: x in options[..|options| - 1] ==> x in options;
      if DependsOnKey(o, key) then init + [o] else init
  }

  /** The dependents of `key` are exactly the options whose `dependsOn` lists it. */
  lemma {:induction false} DependentsMembers(options: seq<AttributeOption>, key: string)
    ensures forall o :: o in GetDependentAttributes(options, key) <==> o in options && DependsOnKey(o, key)
  {
    if options != [] {
      var p, o := options[..|options| - 1], options[|options| - 1];
      DependentsMembers(p, key);
      assert options == p + [o];
      assert forall x :: x in options <==> x in p || x == o;
    }
  }

  /** A clearing dependent of a ranked key is ranked below it. */
  lemma RankedDependent(options: seq<AttributeOption>, rank: map<string, nat>, key: string, o: AttributeOption)
    requires Ranked(options, rank, key) && o in options && Clears(o) && DependsOnKey(o, key)
    ensures Ranked(options, rank, o.value) && Height(rank, o.value) < Height(rank, key)
  {
  }

  /** Filtering keeps declaration order: it distributes over concatenation. */
  lemma {:induction false} DependentsAppend(a: seq<AttributeOption>, b: seq<AttributeOption>, key: string)
    ensures GetDependentAttributes(a + b, key) == GetDependentAttributes(a, key) + GetDependentAttributes(b, key)
    decreases |b|
  {
    if b == [] {
      assert a + b == a;
    } else {
      var b' := b[..|b| - 1];
      assert (a + b)[..|a + b| - 1] == a + b';
      assert (a + b)[|a + b| - 1] == b[|b| - 1];
      DependentsAppend(a, b', key);
    }
  }

  // ---------------------------------------------------------------------------
  // Transitive clearing
  // ---------------------------------------------------------------------------

  /**
   * A ranking of the keys reachable by clearing from `key`: `key` is ranked,
   * and every clearing option that depends on a ranked key is ranked lower.
   * Such a ranking exists exactly when no cycle of clearing dependencies is
   * reachable from `key`; `clearDependentValues` has no visited set, so on
   * such a cycle it recurses until the call stack overflows and a
   * `RangeError` is thrown out of `updateConditionWithDependencies`, after
   * some rows have already been cleared.
   */
  ghost predicate Ranked(options: seq<AttributeOption>, rank: map<string, nat>, key: string)
  {
    key in rank
    && forall o, d :: o in options && Clears(o) && d in DependsOn(o) && d in rank ==>
         o.value in rank && rank[o.value] < rank[d]
  }

  /**
   * Two clearing options that depend on each other admit no ranking from
   * either key: the ranking asks for each to lie strictly below the other.
   */
  lemma CycleUnranked(options: seq<AttributeOption>, rank: map<string, nat>, a: AttributeOption, b: AttributeOption)
    requires a in options && b in options && Clears(a) && Clears(b)
    requires DependsOnKey(a, b.value) && DependsOnKey(b, a.value)
    ensures !Ranked(options, rank, a.value)
  {
  }

  function Height(rank: map<string, nat>, key: string): nat
  {
    if key in rank then rank[key] + 1 else 0
  }

  /** The keys cleared on account of the dependents `ds` of `key`, in turn. */
  ghost function ReachFrom(options: seq<AttributeOption>, rank: map<string, nat>, key: string,
                           ds: seq<AttributeOption>): set<string>
    requires Ranked(options, rank, key)
    requires forall i :: 0 <= i < |ds| ==> ds[i] in options && DependsOnKey(ds[i], key)
    decreases Height(rank, key), 0, |ds|
  {
    if ds == [] then {}
    else
      var o := ds[|ds| - 1];
      assert ds[|ds| - 1] in options && DependsOnKey(ds[|ds| - 1], key);
      ReachFrom(options, rank, key, ds[..|ds| - 1])
        + if Clears(o) then {o.value} + Reach(options, rank, o.value) else {}
  }

  /** The keys whose rows `clearDependentValues(key)` clears. */
  ghost function Reach(options: seq<AttributeOption>, rank: map<string, nat>, key: string): set<string>
    requires Ranked(options, rank, key)
    decreases Height(rank, key), 1
  {
    ReachFrom(options, rank, key, GetDependentAttributes(options, key))
  }

  /** One more dependent adds its own key and what it reaches, when it clears. */
  lemma ReachFromSnoc(options: seq<AttributeOption>, rank: map<string, nat>, key: string,
                      ds: seq<AttributeOption>, i: nat)
    requires Ranked(options, rank, key) && i < |ds|
    requires forall j :: 0 <= j < |ds| ==> ds[j] in options && DependsOnKey(ds[j], key)
    ensures ReachFrom(options, rank, key, ds[..i + 1]) == ReachFrom(options, rank, key, ds[..i])
      + if Clears(ds[i]) then {ds[i].value} + Reach(options, rank, ds[i].value) else {}
  {
    assert ds[..i + 1][..i] == ds[..i];
  }

  /** What `ReachFrom` holds: a clearing dependent in `ds`, or what it reaches. */
  lemma {:induction false} ReachFromMember(options: seq<AttributeOption>, rank: map<string, nat>, key: string,
                                           ds: seq<AttributeOption>, x: string)
    requires Ranked(options, rank, key)
    requires forall i :: 0 <= i < |ds| ==> ds[i] in options && DependsOnKey(ds[i], key)
    ensures x in ReachFrom(options, rank, key, ds) <==>
      exists i :: 0 <= i < |ds| && Clears(ds[i]) && (x == ds[i].value || x in Reach(options, rank, ds[i].value))
  {
    if ds != [] {
      var p := ds[..|ds| - 1];
      ReachFromMember(options, rank, key, p, x);
      assert forall i :: 0 <= i < |p| ==> p[i] == ds[i];
    }
  }

  /** Every clearing dependent of `key` is reached. */
  lemma ReachDirect(options: seq<AttributeOption>, rank: map<string, nat>, key: string, o: AttributeOption)
    requires Ranked(options, rank, key)
    requires o in options && Clears(o) && DependsOnKey(o, key)
    ensures o.value in Reach(options, rank, key)
  {
    var ds := GetDependentAttributes(options, key);
    DependentsMembers(options, key);
    var i :| 0 <= i < |ds| && ds[i] == o;
    ReachFromMember(options, rank, key, ds, o.value);
  }

  /** What a clearing dependent of `key` reaches, `key` reaches too. */
  lemma ReachThrough(options: seq<AttributeOption>, rank: map<string, nat>, key: string, o: AttributeOption,
                     x: string)
    requires Ranked(options, rank, key)
    requires o in options && Clears(o) && DependsOnKey(o, key)
    requires Ranked(options, rank, o.value) && x in Reach(options, rank, o.value)
    ensures x in Reach(options, rank, key)
  {
    var ds := GetDependentAttributes(options, key);
    DependentsMembers(options, key);
    var i :| 0 <= i < |ds| && ds[i] == o;
    ReachFromMember(options, rank, key, ds, x);
  }

  /** A key is reached only through a clearing dependent of `key`. */
  lemma ReachStep(options: seq<AttributeOption>, rank: map<string, nat>, key: string, x: string)
    returns (o: AttributeOption)
    requires Ranked(options, rank, key) && x in Reach(options, rank, key)
    ensures o in options && Clears(o) && DependsOnKey(o, key) && Ranked(options, rank, o.value)
    ensures Height(rank, o.value) < Height(rank, key)
    ensures x == o.value || x in Reach(options, rank, o.value)
  {
    var ds := GetDependentAttributes(options, key);
    ReachFromMember(options, rank, key, ds, x);
    var i :| 0 <= i < |ds| && Clears(ds[i]) && (x == ds[i].value || x in Reach(options, rank, ds[i].value));
    o := ds[i];
  }

  /**
   * The reached keys are closed: a clearing option depending on a reached
   * key is reached as well.
   */
  lemma {:induction false} ReachClosed(options: seq<AttributeOption>, rank: map<string, nat>, key: string,
                                       x: string, o: AttributeOption)
    requires Ranked(options, rank, key) && x in Reach(options, rank, key)
    requires o in options && Clears(o) && DependsOnKey(o, x)
    ensures o.value in Reach(options, rank, key)
    decreases Height(rank, key)
  {
    var d := ReachStep(options, rank, key, x);
    if x == d.value {
      assert Ranked(options, rank, x);
      ReachDirect(options, rank, x, o);
    } else {
      ReachClosed(options, rank, d.value, x, o);
    }
    ReachThrough(options, rank, key, d, o.value);
  }

  /** A set of keys that holds every clearing option depending on `key` or on one of its members. */
  ghost predicate ClosedFrom(options: seq<AttributeOption>, key: string, s: set<string>)
  {
    forall o :: o in options && Clears(o) && (DependsOnKey(o, key) || exists x :: x in s && DependsOnKey(o, x))
      ==> o.value in s
  }

  /** The reached keys are the least such set: nothing is cleared that clearing does not force. */
  lemma {:induction false} ReachLeast(options: seq<AttributeOption>, rank: map<string, nat>, key: string,
                                      s: set<string>)
    requires Ranked(options, rank, key) && ClosedFrom(options, key, s)
    ensures Reach(options, rank, key) <= s
    decreases Height(rank, key)
  {
    forall x | x in Reach(options, rank, key) ensures x in s {
      var o := ReachStep(options, rank, key, x);
      assert o.value in s;
      if x != o.value {
        assert ClosedFrom(options, o.value, s);
        ReachLeast(options, rank, o.value, s);
      }
    }
  }

  /** Only clearing options are reached: one with `clearOnDependencyChange: false` stops the walk. */
  lemma ReachOnlyClearing(options: seq<AttributeOption>, rank: map<string, nat>, key: string)
    requires Ranked(options, rank, key)
    ensures forall x :: x in Reach(options, rank, key) ==> exists o :: o in options && Clears(o) && o.value == x
  {
    var s := set o | o in options && Clears(o) :: o.value;
    ReachLeast(options, rank, key, s);
  }

  /** The rows with these ids get the value "", and nothing else changes. */
  function ClearIds(cs: seq<Condition>, ids: set<string>): (r: seq<Condition>)
    ensures |r| == |cs|
    ensures forall i :: 0 <= i < |cs| ==>
      r[i].id == cs[i].id && r[i].attribute == cs[i].attribute && r[i].operator == cs[i].operator
    ensures forall i :: 0 <= i < |cs| ==> r[i].value == if cs[i].id in ids then Str("") else cs[i].value
  {
    seq(|cs|, i requires 0 <= i < |cs| => if cs[i].id in ids then cs[i].(value := Str("")) else cs[i])
  }

  /** The ids of the rows whose attribute is among `keys`. */
  function IdsWith(cs: seq<Condition>, keys: set<string>): set<string>
  {
    set i | 0 <= i < |cs| && cs[i].attribute in keys :: cs[i].id
  }

  lemma ClearIdsTwice(cs: seq<Condition>, a: set<string>, b: set<string>)
    ensures ClearIds(ClearIds(cs, a), b) == ClearIds(cs, a + b)
  {
  }

  /** Clearing keeps ids and attributes, so it keeps the rows selected by attribute. */
  lemma IdsWithCleared(cs: seq<Condition>, ids: set<string>, keys: set<string>)
    ensures IdsWith(ClearIds(cs, ids), keys) == IdsWith(cs, keys)
  {
    var r := ClearIds(cs, ids);
    assert forall i :: 0 <= i < |cs| ==> r[i].id == cs[i].id && r[i].attribute == cs[i].attribute;
  }

  /** Clearing the rows of more keys after some are cleared is clearing the rows of all of them. */
  lemma ClearMore(cs: seq<Condition>, done: set<string>, more: set<string>)
    ensures var mid := ClearIds(cs, IdsWith(cs, done));
      ClearIds(mid, IdsWith(mid, more)) == ClearIds(cs, IdsWith(cs, done + more))
  {
    IdsWithCleared(cs, IdsWith(cs, done), more);
    ClearIdsTwice(cs, IdsWith(cs, done), IdsWith(cs, more));
    IdsWithUnion(cs, done, more);
  }

  lemma IdsWithUnion(cs: seq<Condition>, a: set<string>, b: set<string>)
    ensures IdsWith(cs, a + b) == IdsWith(cs, a) + IdsWith(cs, b)
  {
  }

  lemma IdsWithSnoc(cs: seq<Condition>, j: nat, keys: set<string>)
    requires j < |cs|
    ensures IdsWith(cs[..j + 1], keys) == IdsWith(cs[..j], keys) + if cs[j].attribute in keys then {cs[j].id} else {}
  {
    var p := cs[..j + 1];
    assert forall i :: 0 <= i < j ==> p[i] == cs[..j][i];
  }

  /** `updateCondition(id, "value", "")` is clearing that one id. */
  lemma ClearOne(options: seq<AttributeOption>, cs: seq<Condition>, id: string)
    ensures UpdateById(options, cs, id, SetValue(Str(""))) == ClearIds(cs, {id})
  {
  }

  /** No two rows share an id (what fresh ids give). */
  predicate UniqueIds(cs: seq<Condition>)
  {
    forall i, j :: 0 <= i < j < |cs| ==> cs[i].id != cs[j].id
  }

  /** With unique ids, clearing by attribute clears exactly the rows with those attributes. */
  lemma ClearUnique(cs: seq<Condition>, keys: set<string>)
    requires UniqueIds(cs)
    ensures forall i :: 0 <= i < |cs| ==>
      ClearIds(cs, IdsWith(cs, keys))[i] == if cs[i].attribute in keys then cs[i].(value := Str("")) else cs[i]
  {
    forall i | 0 <= i < |cs| && cs[i].id in IdsWith(cs, keys) ensures cs[i].attribute in keys {
      var j :| 0 <= j < |cs| && cs[j].attribute in keys && cs[j].id == cs[i].id;
      assert i == j;
    }
  }

  /** In the chain A <- B <- C (each clearing by default), a change of A clears B and C and nothing else. */
  lemma ChainExample(rank: map<string, nat>)
    requires rank == map["A" := 2, "B" := 1, "C" := 0]
    ensures var options := [
        AttributeOption("A", "A", Text, None, None, None, None),
        AttributeOption("B", "B", Select, None, None, Some(["A"]), None),
        AttributeOption("C", "C", Select, None, None, Some(["B"]), None)];
      Ranked(options, rank, "A") && Reach(options, rank, "A") == {"B", "C"}
  {
    var a := AttributeOption("A", "A", Text, None, None, None, None);
    var b := AttributeOption("B", "B", Select, None, None, Some(["A"]), None);
    var c := AttributeOption("C", "C", Select, None, None, Some(["B"]), None);
    var options := [a, b, c];
    assert forall o :: o in options ==> o == a || o == b || o == c;
    assert Ranked(options, rank, "A");
    ReachDirect(options, rank, "A", b);
    ReachClosed(options, rank, "A", "B", c);
    ReachLeast(options, rank, "A", {"B", "C"});
  }

  // ---------------------------------------------------------------------------
  // The option cache
  // ---------------------------------------------------------------------------

  /** `dependentOptions` and `loadingStates`. */
  datatype OptionCache = OptionCache(options: map<string, Value>, loading: map<string, bool>)

  /**
   * `fetchDependentOptions(attribute)` as one step: nothing without a
   * descriptor; the empty list when the dependencies are unsatisfied;
   * otherwise the fetched list (the empty list on failure) with the loading
   * flag cleared.
   */
  function FetchStep(options: seq<AttributeOption>, cs: seq<Condition>, axiosInstance: Option<AxiosInstance>,
                     transport: FetchTransport, attribute: string, cache: OptionCache): OptionCache
  {
    match FindOption(options, attribute)
    case None => cache
    case Some(o) =>
      if o.fetchOptions.None? then cache
      else if !AreDependenciesSatisfied(options, cs, attribute) then
        cache.(options := cache.options[attribute := NoOptions])
      else
        var result := ExecuteFetchOptions(o.fetchOptions.value, DependencyValues(options, cs, attribute),
                                          axiosInstance, transport);
        OptionCache(cache.options[attribute := Caught(result)], cache.loading[attribute := false])
  }

  /** Whether `r` agrees with `cache` at `key`, in both the option lists and the loading flags. */
  predicate SameAt(r: OptionCache, cache: OptionCache, key: string)
  {
    (key in r.options <==> key in cache.options) && (key in r.options ==> r.options[key] == cache.options[key])
    && (key in r.loading <==> key in cache.loading) && (key in r.loading ==> r.loading[key] == cache.loading[key])
  }

  /**
   * The outcome of one fetch step: no change without an option or a
   * descriptor; the empty list when unsatisfied; otherwise the fetched list
   * (the empty list on failure) with loading false; no other key touched.
   */
  lemma FetchStepOutcome(options: seq<AttributeOption>, cs: seq<Condition>, axiosInstance: Option<AxiosInstance>,
                         transport: FetchTransport, attribute: string, cache: OptionCache)
    ensures forall key :: key != attribute ==>
      SameAt(FetchStep(options, cs, axiosInstance, transport, attribute, cache), cache, key)
    ensures FindOption(options, attribute).None? || FindOption(options, attribute).value.fetchOptions.None? ==>
      FetchStep(options, cs, axiosInstance, transport, attribute, cache) == cache
    ensures FindOption(options, attribute).Some? && FindOption(options, attribute).value.fetchOptions.Some?
            && !AreDependenciesSatisfied(options, cs, attribute) ==>
      var r := FetchStep(options, cs, axiosInstance, transport, attribute, cache);
      attribute in r.options && r.options[attribute] == NoOptions && r.loading == cache.loading
    ensures FindOption(options, attribute).Some? && FindOption(options, attribute).value.fetchOptions.Some?
            && AreDependenciesSatisfied(options, cs, attribute) ==>
      var r := FetchStep(options, cs, axiosInstance, transport, attribute, cache);
      attribute in r.options && attribute in r.loading && !r.loading[attribute]
      && r.options[attribute] == Caught(ExecuteFetchOptions(FindOption(options, attribute).value.fetchOptions.value,
                                                            DependencyValues(options, cs, attribute),
                                                            axiosInstance, transport))
  {
  }

  /** The fetches for the dependents `ds`, one after another. */
  function FetchAll(options: seq<AttributeOption>, cs: seq<Condition>, axiosInstance: Option<AxiosInstance>,
                    transport: FetchTransport, ds: seq<AttributeOption>, cache: OptionCache): OptionCache
  {
    if ds == [] then cache
    else
      var init := FetchAll(options, cs, axiosInstance, transport, ds[..|ds| - 1], cache);
      FetchStep(options, cs, axiosInstance, transport, ds[|ds| - 1].value, init)
  }

  /** Keys of no dependent in `ds` are left as they were. */
  lemma {:induction false} FetchAllFrame(options: seq<AttributeOption>, cs: seq<Condition>,
                                         axiosInstance: Option<AxiosInstance>, transport: FetchTransport,
                                         ds: seq<AttributeOption>, cache: OptionCache, key: string)
    requires forall i :: 0 <= i < |ds| ==> ds[i].value != key
    ensures SameAt(FetchAll(options, cs, axiosInstance, transport, ds, cache), cache, key)
  {
    if ds != [] {
      var p := ds[..|ds| - 1];
      assert forall i :: 0 <= i < |p| ==> p[i] == ds[i];
      FetchAllFrame(options, cs, axiosInstance, transport, p, cache, key);
      var init := FetchAll(options, cs, axiosInstance, transport, p, cache);
      FetchStepOutcome(options, cs, axiosInstance, transport, ds[|ds| - 1].value, init);
    }
  }

  /** One more dependent is one more fetch step. */
  lemma FetchAllSnoc(options: seq<AttributeOption>, cs: seq<Condition>, axiosInstance: Option<AxiosInstance>,
                     transport: FetchTransport, ds: seq<AttributeOption>, i: nat, cache: OptionCache)
    requires i < |ds|
    ensures FetchAll(options, cs, axiosInstance, transport, ds[..i + 1], cache)
      == FetchStep(options, cs, axiosInstance, transport, ds[i].value,
                   FetchAll(options, cs, axiosInstance, transport, ds[..i], cache))
  {
    assert ds[..i + 1][..i] == ds[..i];
  }

  /**
   * After the fetches, every dependent with a descriptor has an option list,
   * and its loading flag is cleared when its dependencies are satisfied.
   */
  lemma {:induction false} FetchAllSettles(options: seq<AttributeOption>, cs: seq<Condition>,
                                           axiosInstance: Option<AxiosInstance>, transport: FetchTransport,
                                           ds: seq<AttributeOption>, cache: OptionCache, i: nat)
    requires i < |ds|
    requires FindOption(options, ds[i].value).Some? && FindOption(options, ds[i].value).value.fetchOptions.Some?
    ensures ds[i].value in FetchAll(options, cs, axiosInstance, transport, ds, cache).options
    ensures AreDependenciesSatisfied(options, cs, ds[i].value) ==>
      ds[i].value in FetchAll(options, cs, axiosInstance, transport, ds, cache).loading
      && !FetchAll(options, cs, axiosInstance, transport, ds, cache).loading[ds[i].value]
  {
    var key := ds[i].value;
    var p := ds[..|ds| - 1];
    var init := FetchAll(options, cs, axiosInstance, transport, p, cache);
    assert FetchAll(options, cs, axiosInstance, transport, ds, cache)
      == FetchStep(options, cs, axiosInstance, transport, ds[|ds| - 1].value, init);
    FetchStepOutcome(options, cs, axiosInstance, transport, ds[|ds| - 1].value, init);
    if i < |ds| - 1 && ds[|ds| - 1].value != key {
      assert p[i] == ds[i];
      FetchAllSettles(options, cs, axiosInstance, transport, p, cache, i);
    }
  }

  // ---------------------------------------------------------------------------
  // The state
  // ---------------------------------------------------------------------------

  /** The row with this id, if any (`conditions.find(c => c.id === id)`). */
  function FindById(cs: seq<Condition>, id: string): (r: Option<Condition>)
    ensures r.None? <==> forall i :: 0 <= i < |cs| ==> cs[i].id != id
    ensures r.Some? ==> exists i :: 0 <= i < |cs| && cs[i] == r.value && r.value.id == id
                          && forall j :: 0 <= j < i ==> cs[j].id != id
  {
    if cs == [] then None
    else if cs[0].id == id then Some(cs[0])
    else
      var r := FindById(cs[1..], id);
      assert forall i :: 1 <= i < |cs| ==> cs[i] == cs[1..][i - 1];
      r
  }

  /**
   * The key whose dependents an update clears and re-fetches: the new
   * attribute, or the row's attribute when its value changes; none for an
   * unknown id, another field, or an empty key.
   */
  function ChangedKey(cs: seq<Condition>, id: string, update: ConditionUpdate): (r: Option<string>)
    ensures FindById(cs, id).None? || update.SetId? || update.SetOperator? ==> r.None?
    ensures FindById(cs, id).Some? && update.SetAttribute? ==>
      r == if update.attribute != "" then Some(update.attribute) else None
    ensures FindById(cs, id).Some? && update.SetValue? ==>
      var attribute := FindById(cs, id).value.attribute;
      r == if attribute != "" then Some(attribute) else None
  {
    match FindById(cs, id)
    case None => None
    case Some(c) =>
      match update
      case SetAttribute(attribute) => if attribute != "" then Some(attribute) else None
      case SetValue(_) => if c.attribute != "" then Some(c.attribute) else None
      case _ => None
  }

  /** The filter state extended with dependent option lists and loading flags. */
  class DependentFilterState {
    const base: FilterState
    const axiosInstance: Option<AxiosInstance>
    var dependentOptions: map<string, Value>
    var loadingStates: map<string, bool>

    constructor(attributeOptions: seq<AttributeOption>, initialFilters: Option<FilterParams>,
                defaultConditionsCount: nat, newId: nat -> string, axiosInstance: Option<AxiosInstance>)
      requires InitialConditions(initialFilters, defaultConditionsCount, newId).Normal?
      ensures fresh(base) && base.attributeOptions == attributeOptions
      ensures base.defaultConditionsCount == defaultConditionsCount && base.newId == newId
      ensures base.conditions == InitialConditions(initialFilters, defaultConditionsCount, newId).value
      ensures base.issued == |base.conditions|
      ensures base.sortField == InitialSortField(initialFilters) && base.sortOrder == InitialSortOrder(initialFilters)
      ensures base.archive == InitialArchive(initialFilters) && base.error == ""
      ensures this.axiosInstance == axiosInstance
      ensures dependentOptions == map[] && loadingStates == map[]
    {
      base := new FilterState(attributeOptions, initialFilters, defaultConditionsCount, newId);
      this.axiosInstance := axiosInstance;
      dependentOptions := map[];
      loadingStates := map[];
    }

    function Cache(): OptionCache
      reads this
    {
      OptionCache(dependentOptions, loadingStates)
    }

    /** The fields of the filter state that dependency handling leaves alone. */
    function BaseRest(): (nat, string, string, bool, string)
      reads base
    {
      (base.issued, base.sortField, base.sortOrder, base.archive, base.error)
    }

    /**
     * `clearDependentValues(key)`: every clearing dependent's rows get the
     * value "" and its own dependents are cleared in turn.
     */
    method ClearDependentValues(key: string, ghost rank: map<string, nat>)
      requires Ranked(base.attributeOptions, rank, key)
      modifies base
      ensures base.conditions ==
        ClearIds(old(base.conditions), IdsWith(old(base.conditions), Reach(base.attributeOptions, rank, key)))
      ensures BaseRest() == old(BaseRest())
      decreases Height(rank, key)
    {
      ghost var start, options := base.conditions, base.attributeOptions;
      var dependents := GetDependentAttributes(base.attributeOptions, key);
      ghost var reached: set<string> := {};
      var i := 0;
      while i < |dependents|
        invariant 0 <= i <= |dependents|
        invariant reached == ReachFrom(options, rank, key, dependents[..i])
        invariant base.conditions == ClearIds(start, IdsWith(start, reached))
        invariant BaseRest() == old(BaseRest())
      {
        var dep := dependents[i];
        ReachFromSnoc(options, rank, key, dependents, i);
        if dep.clearOnDependencyChange != Some(false) {
          RankedDependent(options, rank, key, dep);
          ghost var more := Reach(options, rank, dep.value);
          ClearRowsWith(dep.value);
          ClearMore(start, reached, {dep.value});
          reached := reached + {dep.value};
          ClearDependentValues(dep.value, rank);
          ClearMore(start, reached, more);
          reached := reached + more;
        }
        i := i + 1;
      }
      assert dependents[..i] == dependents;
    }

    /** The rows with this attribute get the value "", one `updateCondition` per row. */
    method ClearRowsWith(attribute: string)
      modifies base
      ensures base.conditions == ClearIds(old(base.conditions), IdsWith(old(base.conditions), {attribute}))
      ensures BaseRest() == old(BaseRest())
    {
      var snapshot := base.conditions;
      var j := 0;
      while j < |snapshot|
        invariant 0 <= j <= |snapshot|
        invariant base.conditions == ClearIds(snapshot, IdsWith(snapshot[..j], {attribute}))
        invariant BaseRest() == old(BaseRest())
      {
        IdsWithSnoc(snapshot, j, {attribute});
        if snapshot[j].attribute == attribute {
          ghost var before := base.conditions;
          base.UpdateCondition(snapshot[j].id, SetValue(Str("")));
          ClearOne(base.attributeOptions, before, snapshot[j].id);
          ClearIdsTwice(snapshot, IdsWith(snapshot[..j], {attribute}), {snapshot[j].id});
        }
        j := j + 1;
      }
      assert snapshot[..j] == snapshot;
    }

    /** `fetchDependentOptions(attribute)`, given the network, as one step. */
    method FetchDependentOptions(attribute: string, transport: FetchTransport)
      modifies this
      ensures Cache() == FetchStep(base.attributeOptions, base.conditions, axiosInstance, transport, attribute,
                                   old(Cache()))
    {
      ghost var before := Cache();
      var option := FindOption(base.attributeOptions, attribute);
      if option.None? || option.value.fetchOptions.None? {
        return;
      }
      if !AreDependenciesSatisfied(base.attributeOptions, base.conditions, attribute) {
        dependentOptions := dependentOptions[attribute := NoOptions];
        return;
      }
      var dependencyValues := GetDependencyValues(base.attributeOptions, base.conditions, attribute);
      loadingStates := loadingStates[attribute := true];
      var result := ExecuteFetchOptions(option.value.fetchOptions.value, dependencyValues, axiosInstance, transport);
      match result {
        case Normal(fetched) => dependentOptions := dependentOptions[attribute := fetched];
        case Abrupt => dependentOptions := dependentOptions[attribute := NoOptions];
      }
      loadingStates := loadingStates[attribute := false];
      assert dependentOptions == before.options[attribute := Caught(result)];
      assert loadingStates == before.loading[attribute := false];
    }

    /** `getDependentAttributes(key).forEach(dep => fetchDependentOptions(dep.value))`, one fetch after another. */
    method FetchDependents(key: string, transport: FetchTransport)
      modifies this
      ensures Cache() == FetchAll(base.attributeOptions, base.conditions, axiosInstance, transport,
                                  GetDependentAttributes(base.attributeOptions, key), old(Cache()))
    {
      var dependents := GetDependentAttributes(base.attributeOptions, key);
      ghost var options, cs, start := base.attributeOptions, base.conditions, Cache();
      var i := 0;
      while i < |dependents|
        invariant 0 <= i <= |dependents|
        invariant Cache() == FetchAll(options, cs, axiosInstance, transport, dependents[..i], start)
      {
        FetchAllSnoc(options, cs, axiosInstance, transport, dependents, i, start);
        FetchDependentOptions(dependents[i].value, transport);
        i := i + 1;
      }
      assert dependents[..i] == dependents;
    }

    /**
     * `updateConditionWithDependencies`: nothing for an unknown id;
     * otherwise the base update, and when an attribute or a value changed
     * under a non-empty key, the transitive clear from that key and a fetch
     * for each of its direct dependents.
     */
    method UpdateConditionWithDependencies(id: string, update: ConditionUpdate, transport: FetchTransport,
                                           ghost rank: map<string, nat>)
      requires ChangedKey(base.conditions, id, update).Some? ==>
        Ranked(base.attributeOptions, rank, ChangedKey(base.conditions, id, update).value)
      modifies this, base
      ensures FindById(old(base.conditions), id).None? ==>
        base.conditions == old(base.conditions) && Cache() == old(Cache())
      ensures FindById(old(base.conditions), id).Some? && ChangedKey(old(base.conditions), id, update).None? ==>
        base.conditions == UpdateById(base.attributeOptions, old(base.conditions), id, update)
        && Cache() == old(Cache())
      ensures ChangedKey(old(base.conditions), id, update).Some? ==>
        var key := ChangedKey(old(base.conditions), id, update).value;
        var updated := UpdateById(base.attributeOptions, old(base.conditions), id, update);
        base.conditions == ClearIds(updated, IdsWith(updated, Reach(base.attributeOptions, rank, key)))
        && Cache() == FetchAll(base.attributeOptions, base.conditions, axiosInstance, transport,
                               GetDependentAttributes(base.attributeOptions, key), old(Cache()))
      ensures BaseRest() == old(BaseRest())
    {
      var condition := FindById(base.conditions, id);
      if condition.None? {
        return;
      }
      ghost var key := ChangedKey(base.conditions, id, update);
      base.UpdateCondition(id, update);
      if update.SetAttribute? || update.SetValue? {
        var changedAttribute := if update.SetAttribute? then update.attribute else condition.value.attribute;
        if changedAttribute != "" {
          assert key == Some(changedAttribute);
          ClearDependentValues(changedAttribute, rank);
          FetchDependents(changedAttribute, transport);
        }
      }
    }
  }
}
