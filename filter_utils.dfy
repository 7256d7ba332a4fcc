/**
 * The condition model's serialisation: the value-validity predicate, the
 * condition list to `attribute -> {"$operator": value}` formatter, and the
 * parser that turns such a mapping back into conditions.
 */
module FilterUtils {
  import opened JsValues
  import opened FilterTypes

  // ---------------------------------------------------------------------------
  // isValidValue
  // ---------------------------------------------------------------------------

  /** Whether a condition's value counts as filled in. */
  predicate IsValidValue(v: Value)
  {
    match v
    case Undefined => false
    case Null => false
    case Str(s) => Trim(s) != ""
    case Arr(items) => |items| > 0 && forall i :: 0 <= i < |items| ==> items[i] != Null && items[i] != Str("")
    case Obj(es) =>
      if Truthy(OptionalProperty(v, "from")) || Truthy(OptionalProperty(v, "to")) then true
      else |es| > 0
    case _ => true
  }

  /** Null, undefined and strings of white space are not valid; other strings are. */
  lemma StringValidity(v: Value)
    ensures IsNullish(v) ==> !IsValidValue(v)
    ensures v.Str? ==> (IsValidValue(v) <==> exists i :: 0 <= i < |v.s| && !IsWhiteSpace(v.s[i]))
  {
    if v.Str? { TrimNonEmpty(v.s); }
  }

  /**
   * An array is valid when it is non-empty and holds no null and no "";
   * elements are not trimmed, and undefined elements pass.
   */
  lemma ArrayValidity(items: seq<Value>)
    ensures IsValidValue(Arr(items)) <==> |items| > 0 && Null !in items && Str("") !in items
    ensures |items| > 0 && Null !in items && Str("") !in items ==> IsValidValue(Arr(items + [Undefined, Str(" ")]))
  {
    var more := items + [Undefined, Str(" ")];
    if |items| > 0 && Null !in items && Str("") !in items {
      forall i | 0 <= i < |more| ensures more[i] != Null && more[i] != Str("") {
        if i < |items| { assert more[i] in items; }
      }
    }
  }

  /**
   * Objects: a truthy own `from` or `to` makes the object valid, and since
   * such a property is an own property, the object is valid exactly when it
   * has at least one own property.
   */
  lemma {:induction false} ObjectValidity(es: seq<Entry<Value>>)
    ensures Truthy(OptionalProperty(Obj(es), "from")) ==> IsValidValue(Obj(es))
    ensures IsValidValue(Obj(es)) <==> |es| > 0
  {
    if es == [] {
      assert Lookup(es, "from") == None && Lookup(es, "to") == None;
    }
  }

  /** Every other kind of value is valid, including `0` and `false`. */
  lemma OtherValidity(v: Value)
    requires v.Bool? || v.Num?
    ensures IsValidValue(v)
    ensures IsValidValue(Num(0)) && IsValidValue(Bool(false))
  {
  }

  // ---------------------------------------------------------------------------
  // formatFilterConditions
  // ---------------------------------------------------------------------------

  /** Whether `formatFilterConditions` keeps a condition. */
  predicate Kept(c: Condition)
  {
    c.attribute != "" && c.operator != "" && IsValidValue(c.value)
  }

  /** The operator key a kept condition is stored under: `$` and the lower-cased operator. */
  function OperatorKey(op: string): string
  {
    "$" + ToLower(op)
  }

  /** The key is `$` followed by the lower-cased operator. */
  lemma OperatorKeyShape(op: string)
    ensures |OperatorKey(op)| == |op| + 1 && OperatorKey(op)[0] == '$' && OperatorKey(op)[1..] == ToLower(op)
  {
    assert OperatorKey(op)[1..] == ToLower(op);
  }

  /** The formatted mapping while it is built: attribute -> operator key -> value. */
  type Groups = seq<Entry<seq<Entry<Value>>>>

  /** The operator sub-mapping of `attribute`, or `{}` when it has none yet. */
  function GroupOf(g: Groups, attribute: string): seq<Entry<Value>>
  {
    match Lookup(g, attribute)
    case Some(ops) => ops
    case None => []
  }

  /** The mapping after the first `|cs|` conditions have been visited. */
  function FormatGroups(cs: seq<Condition>): Groups
  {
    if cs == [] then []
    else
      var g := FormatGroups(cs[..|cs| - 1]);
      var c := cs[|cs| - 1];
      if Kept(c) then Put(g, c.attribute, Put(GroupOf(g, c.attribute), OperatorKey(c.operator), c.value))
      else g
  }

  /** The mapping as the JavaScript object the formatter returns. */
  function GroupsToValue(g: Groups): (v: Value)
    ensures v.Obj? && |v.entries| == |g|
    ensures forall i :: 0 <= i < |g| ==> v.entries[i] == Entry(g[i].key, Obj(g[i].val))
  {
    Obj(seq(|g|, i requires 0 <= i < |g| => Entry(g[i].key, Obj(g[i].val))))
  }

  function FormatValue(cs: seq<Condition>): Value
  {
    GroupsToValue(FormatGroups(cs))
  }

  method FormatFilterConditions(conditions: seq<Condition>) returns (formatted: Value)
    ensures formatted == FormatValue(conditions)
  {
    var groups: Groups := [];
    var i := 0;
    while i < |conditions|
      invariant 0 <= i <= |conditions|
      invariant groups == FormatGroups(conditions[..i])
    {
      var c := conditions[i];
      assert conditions[..i + 1][..i] == conditions[..i];
      if c.attribute != "" && c.operator != "" && IsValidValue(c.value) {
        var operators: seq<Entry<Value>> := [];
        var existing := Lookup(groups, c.attribute);
        if existing.Some? {
          operators := existing.value;
        }
        groups := Put(groups, c.attribute, Put(operators, OperatorKey(c.operator), c.value));
      }
      i := i + 1;
    }
    assert conditions[..i] == conditions;
    formatted := GroupsToValue(groups);
  }

  /** Whether `c` is kept and stored under `attribute` and operator key `key`. */
  predicate StoredAt(c: Condition, attribute: string, key: string)
  {
    Kept(c) && c.attribute == attribute && OperatorKey(c.operator) == key
  }

  /** The value of the LAST condition of `cs` stored at `attribute` and `key`. */
  function LastStored(cs: seq<Condition>, attribute: string, key: string): Option<Value>
  {
    if cs == [] then None
    else if StoredAt(cs[|cs| - 1], attribute, key) then Some(cs[|cs| - 1].value)
    else LastStored(cs[..|cs| - 1], attribute, key)
  }

  /** Row `i` of `cs` is stored at `attribute` and `key`, and no later row is. */
  predicate LastAt(cs: seq<Condition>, i: int, attribute: string, key: string)
  {
    0 <= i < |cs| && StoredAt(cs[i], attribute, key)
      && forall j :: i < j < |cs| ==> !StoredAt(cs[j], attribute, key)
  }

  /** Below a last row that stores nothing there, the latest row is the same in the prefix. */
  lemma LastAtPrefix(cs: seq<Condition>, i: int, attribute: string, key: string)
    requires cs != [] && !StoredAt(cs[|cs| - 1], attribute, key)
    ensures LastAt(cs, i, attribute, key) <==> LastAt(cs[..|cs| - 1], i, attribute, key)
  {
    var n := |cs| - 1;
    var p := cs[..n];
    assert forall j :: 0 <= j < n ==> p[j] == cs[j];
    if LastAt(cs, i, attribute, key) {
      assert i < n;
      assert forall j :: i < j < |p| ==> !StoredAt(p[j], attribute, key) by {
        forall j | i < j < |p| ensures !StoredAt(p[j], attribute, key) {
          assert p[j] == cs[j];
        }
      }
    }
    if LastAt(p, i, attribute, key) {
      assert forall j :: i < j < |cs| ==> !StoredAt(cs[j], attribute, key) by {
        forall j | i < j < |cs| ensures !StoredAt(cs[j], attribute, key) {
          if j < n { assert cs[j] == p[j]; }
        }
      }
    }
  }

  /** `LastStored` is last-write-wins: the value of the latest condition stored at that place. */
  lemma {:induction false} LastStoredIsLast(cs: seq<Condition>, attribute: string, key: string, v: Value)
    ensures LastStored(cs, attribute, key) == Some(v) <==>
      exists i :: LastAt(cs, i, attribute, key) && cs[i].value == v
  {
    if cs != [] {
      var n := |cs| - 1;
      var p := cs[..n];
      LastStoredIsLast(p, attribute, key, v);
      if !StoredAt(cs[n], attribute, key) {
        assert LastStored(cs, attribute, key) == LastStored(p, attribute, key);
        if LastStored(cs, attribute, key) == Some(v) {
          var i :| LastAt(p, i, attribute, key) && p[i].value == v;
          LastAtPrefix(cs, i, attribute, key);
          assert cs[i] == p[i];
        }
        if exists i :: LastAt(cs, i, attribute, key) && cs[i].value == v {
          var i :| LastAt(cs, i, attribute, key) && cs[i].value == v;
          LastAtPrefix(cs, i, attribute, key);
          assert p[i] == cs[i];
        }
      } else {
        assert LastStored(cs, attribute, key) == Some(cs[n].value);
        if LastStored(cs, attribute, key) == Some(v) {
          assert LastAt(cs, n, attribute, key);
        }
        if exists i :: LastAt(cs, i, attribute, key) && cs[i].value == v {
          var i :| LastAt(cs, i, attribute, key) && cs[i].value == v;
          assert i == n;
        }
      }
    }
  }

  /** `LastStored` finds something exactly when some condition is stored at that place. */
  lemma {:induction false} LastStoredSome(cs: seq<Condition>, attribute: string, key: string)
    ensures LastStored(cs, attribute, key).Some? <==> exists i :: 0 <= i < |cs| && StoredAt(cs[i], attribute, key)
  {
    if cs != [] {
      var p := cs[..|cs| - 1];
      LastStoredSome(p, attribute, key);
      assert forall i :: 0 <= i < |p| ==> p[i] == cs[i];
    }
  }

  /**
   * Reading the formatted mapping at `attribute` and `key` gives exactly the
   * value of the last condition stored there (last-write-wins), and nothing
   * where no kept condition was stored.
   */
  lemma {:induction false} FormatLookup(cs: seq<Condition>, attribute: string, key: string)
    ensures Lookup(GroupOf(FormatGroups(cs), attribute), key) == LastStored(cs, attribute, key)
  {
    if cs != [] {
      var p := cs[..|cs| - 1];
      var c := cs[|cs| - 1];
      var g := FormatGroups(p);
      FormatLookup(p, attribute, key);
      if Kept(c) {
        var ops := Put(GroupOf(g, c.attribute), OperatorKey(c.operator), c.value);
        PutLookup(g, c.attribute, ops, attribute);
        PutLookup(GroupOf(g, c.attribute), OperatorKey(c.operator), c.value, key);
      }
    }
  }

  /** The formatted mapping's attributes are exactly those of the kept conditions. */
  lemma {:induction false} FormatAttributes(cs: seq<Condition>, attribute: string)
    ensures attribute in Keys(FormatGroups(cs)) <==> KeptUnder(cs, attribute)
  {
    if cs != [] {
      var p := cs[..|cs| - 1];
      var c := cs[|cs| - 1];
      var g := FormatGroups(p);
      FormatAttributes(p, attribute);
      var here := Kept(c) && c.attribute == attribute;
      assert attribute in Keys(FormatGroups(cs)) <==> attribute in Keys(g) || here by {
        if Kept(c) {
          var ops := Put(GroupOf(g, c.attribute), OperatorKey(c.operator), c.value);
          assert FormatGroups(cs) == Put(g, c.attribute, ops);
          PutKeys(g, c.attribute, ops);
        } else {
          assert FormatGroups(cs) == g;
        }
      }
      KeptAttributeSnoc(cs, attribute);
    }
  }

  /** Some condition of `cs` is kept and names `attribute`. */
  ghost predicate KeptUnder(cs: seq<Condition>, attribute: string)
  {
    exists i :: 0 <= i < |cs| && Kept(cs[i]) && cs[i].attribute == attribute
  }

  /** A condition is kept under `attribute` in `cs` iff one is in its prefix, or its last one is. */
  lemma KeptAttributeSnoc(cs: seq<Condition>, attribute: string)
    requires cs != []
    ensures KeptUnder(cs, attribute)
        <==> KeptUnder(cs[..|cs| - 1], attribute) || (Kept(cs[|cs| - 1]) && cs[|cs| - 1].attribute == attribute)
  {
    var p := cs[..|cs| - 1];
    if KeptUnder(cs, attribute) {
      var i :| 0 <= i < |cs| && Kept(cs[i]) && cs[i].attribute == attribute;
      if i < |p| {
        assert p[i] == cs[i];
      }
    }
    if KeptUnder(p, attribute) {
      var i :| 0 <= i < |p| && Kept(p[i]) && p[i].attribute == attribute;
      assert cs[i] == p[i];
    }
  }

  /** Both levels of a formatted mapping have unique property names. */
  predicate WellFormedGroups(g: Groups)
  {
    UniqueKeys(g) && forall i :: 0 <= i < |g| ==> UniqueKeys(g[i].val)
  }

  lemma {:induction false} FormatWellFormed(cs: seq<Condition>)
    ensures WellFormedGroups(FormatGroups(cs))
  {
    if cs != [] {
      var p := cs[..|cs| - 1];
      var c := cs[|cs| - 1];
      var g := FormatGroups(p);
      FormatWellFormed(p);
      if Kept(c) {
        var old_ops := GroupOf(g, c.attribute);
        assert UniqueKeys(old_ops) by {
          if Lookup(g, c.attribute).Some? { LookupIn(g, c.attribute); }
        }
        var ops := Put(old_ops, OperatorKey(c.operator), c.value);
        PutUnique(old_ops, OperatorKey(c.operator), c.value);
        PutUnique(g, c.attribute, ops);
        PutValues(g, c.attribute, ops);
      }
    }
  }

  /** A found sub-mapping is one of the mapping's properties. */
  lemma {:induction false} LookupIn<V>(es: seq<Entry<V>>, k: string)
    requires Lookup(es, k).Some?
    ensures exists i :: 0 <= i < |es| && es[i] == Entry(k, Lookup(es, k).value)
  {
    if es[0].key != k {
      LookupIn(es[1..], k);
      var i :| 0 <= i < |es[1..]| && es[1..][i] == Entry(k, Lookup(es, k).value);
      assert es[i + 1] == es[1..][i];
    }
  }

  /** After `Put`, every property is an old one or the new one. */
  lemma {:induction false} PutValues<V>(es: seq<Entry<V>>, k: string, v: V)
    ensures forall i :: 0 <= i < |Put(es, k, v)| ==> Put(es, k, v)[i] in es || Put(es, k, v)[i] == Entry(k, v)
  {
    if es != [] && es[0].key != k {
      PutValues(es[1..], k, v);
      var r := Put(es, k, v);
      forall i | 0 <= i < |r| ensures r[i] in es || r[i] == Entry(k, v) {
        if i > 0 {
          assert r[i] == Put(es[1..], k, v)[i - 1];
          if r[i] in es[1..] {
            var j :| 0 <= j < |es[1..]| && es[1..][j] == r[i];
            assert es[j + 1] == r[i];
          }
        }
      }
    }
  }

  // ---------------------------------------------------------------------------
  // parseFilterConditions
  // ---------------------------------------------------------------------------

  /** The operator recovered from an operator key: first `$` removed, first letter upper-cased. */
  function RecoverOperator(key: string): string
  {
    Capitalize(RemoveFirstDollar(key))
  }

  /** The conditions pushed for one attribute's operator keys, ids drawn from `next` on. */
  function ParseOperators(attribute: string, ops: seq<Entry<Value>>, newId: nat -> string, next: nat)
    : (r: seq<Condition>)
    ensures |r| == |ops|
  {
    if ops == [] then []
    else
      var init := ParseOperators(attribute, ops[..|ops| - 1], newId, next);
      var e := ops[|ops| - 1];
      init + [Condition(newId(next + |init|), attribute, RecoverOperator(e.key), e.val)]
  }

  /**
   * One attribute entry on top of what the earlier entries pushed: a null
   * value makes `Object.keys` throw, an object or array pushes its operator
   * keys, anything else is skipped.
   */
  function ParseAfter(prior: Completion<seq<Condition>>, e: Entry<Value>, newId: nat -> string, next: nat)
    : Completion<seq<Condition>>
  {
    match prior
    case Abrupt => Abrupt
    case Normal(init) =>
      if e.val.Null? then Abrupt
      else if IsObjectType(e.val) then
        Normal(init + ParseOperators(e.key, OwnEntries(e.val), newId, next + |init|))
      else Normal(init)
  }

  /** The conditions pushed for the first `|es|` attribute entries. */
  function ParseEntries(es: seq<Entry<Value>>, newId: nat -> string, next: nat): Completion<seq<Condition>>
  {
    if es == [] then Normal([])
    else ParseAfter(ParseEntries(es[..|es| - 1], newId, next), es[|es| - 1], newId, next)
  }

  function ParseSpec(customFilter: Value, newId: nat -> string, next: nat): Completion<seq<Condition>>
  {
    if !Truthy(customFilter) || !IsObjectType(customFilter) then Normal([])
    else ParseEntries(OwnEntries(customFilter), newId, next)
  }

  /**
   * `parseFilterConditions`; the `k`-th condition pushed gets the id
   * `newId(next + k)`, standing for the `k`-th call of `generateUniqueId`.
   */
  method ParseFilterConditions(customFilter: Value, newId: nat -> string, next: nat)
    returns (r: Completion<seq<Condition>>)
    ensures r == ParseSpec(customFilter, newId, next)
  {
    if !Truthy(customFilter) || !IsObjectType(customFilter) {
      return Normal([]);
    }
    var conditions: seq<Condition> := [];
    var attributes := OwnEntries(customFilter);
    var i := 0;
    while i < |attributes|
      invariant 0 <= i <= |attributes|
      invariant ParseEntries(attributes[..i], newId, next) == Normal(conditions)
    {
      var pushed := ParseAttribute(conditions, attributes[i], newId, next);
      ParseEntriesStep(attributes, i, newId, next, conditions);
      if pushed.Abrupt? {
        ParseAbruptPrefix(attributes, i + 1, newId, next);
        return Abrupt;
      }
      conditions := pushed.value;
      i := i + 1;
    }
    assert attributes[..i] == attributes;
    return Normal(conditions);
  }

  /** The body of the outer loop: one attribute entry on top of `conditions`. */
  method ParseAttribute(conditions: seq<Condition>, e: Entry<Value>, newId: nat -> string, next: nat)
    returns (r: Completion<seq<Condition>>)
    ensures r == ParseAfter(Normal(conditions), e, newId, next)
  {
    var operators := e.val;
    if operators.Null? {
      // Object.keys(null) throws a TypeError
      return Abrupt;
    }
    if !IsObjectType(operators) {
      return Normal(conditions);
    }
    var pushed := PushOperators(conditions, e.key, OwnEntries(operators), newId, next);
    ParseAfterObject(conditions, e, newId, next);
    return Normal(pushed);
  }

  /**
   * The inner loop of `parseFilterConditions`: one condition per operator
   * key of an attribute, appended to `conditions`.
   */
  method PushOperators(conditions: seq<Condition>, attribute: string, keys: seq<Entry<Value>>,
                       newId: nat -> string, next: nat)
    returns (r: seq<Condition>)
    ensures r == conditions + ParseOperators(attribute, keys, newId, next + |conditions|)
  {
    r := conditions;
    var j := 0;
    while j < |keys|
      invariant 0 <= j <= |keys|
      invariant r == conditions + ParseOperators(attribute, keys[..j], newId, next + |conditions|)
    {
      ParseOperatorsStep(attribute, keys, j, newId, next + |conditions|);
      var operator := RemoveFirstDollar(keys[j].key);
      r := r + [Condition(newId(next + |r|), attribute, Capitalize(operator), keys[j].val)];
      j := j + 1;
    }
    assert keys[..j] == keys;
  }

  lemma ParseOperatorsStep(attribute: string, ops: seq<Entry<Value>>, j: nat, newId: nat -> string, next: nat)
    requires j < |ops|
    ensures ParseOperators(attribute, ops[..j + 1], newId, next)
      == ParseOperators(attribute, ops[..j], newId, next)
         + [Condition(newId(next + j), attribute, RecoverOperator(ops[j].key), ops[j].val)]
  {
    assert ops[..j + 1][..j] == ops[..j];
  }

  /** One more attribute entry is one `ParseAfter` step on the conditions pushed so far. */
  lemma ParseEntriesStep(es: seq<Entry<Value>>, i: nat, newId: nat -> string, next: nat, init: seq<Condition>)
    requires i < |es| && ParseEntries(es[..i], newId, next) == Normal(init)
    ensures ParseEntries(es[..i + 1], newId, next) == ParseAfter(Normal(init), es[i], newId, next)
  {
    assert es[..i + 1][..i] == es[..i];
  }

  /** An attribute whose value is an object or an array pushes its operator conditions. */
  lemma {:induction false} ParseAfterObject(init: seq<Condition>, e: Entry<Value>, newId: nat -> string, next: nat)
    requires IsObjectType(e.val) && !e.val.Null?
    ensures ParseAfter(Normal(init), e, newId, next)
      == Normal(init + ParseOperators(e.key, OwnEntries(e.val), newId, next + |init|))
  {
  }

  lemma {:induction false} ParseAbruptPrefix(es: seq<Entry<Value>>, i: nat, newId: nat -> string, next: nat)
    requires i <= |es|
    requires ParseEntries(es[..i], newId, next).Abrupt?
    ensures ParseEntries(es, newId, next).Abrupt?
    decreases |es| - i
  {
    if i < |es| {
      assert es[..i + 1][..i] == es[..i];
      ParseAbruptPrefix(es, i + 1, newId, next);
    } else {
      assert es[..i] == es;
    }
  }

  /** The `k`-th condition pushed for an attribute comes from its `k`-th operator key, in order. */
  lemma {:induction false} ParseOperatorsAt(attribute: string, ops: seq<Entry<Value>>, newId: nat -> string, next: nat)
    ensures forall k :: 0 <= k < |ops| ==>
      ParseOperators(attribute, ops, newId, next)[k]
        == Condition(newId(next + k), attribute, RecoverOperator(ops[k].key), ops[k].val)
  {
    if ops != [] {
      var p := ops[..|ops| - 1];
      ParseOperatorsAt(attribute, p, newId, next);
      assert forall k :: 0 <= k < |p| ==> p[k] == ops[k];
    }
  }

  /** Parsing throws exactly when some attribute entry holds null. */
  lemma {:induction false} ParseAbruptIff(es: seq<Entry<Value>>, newId: nat -> string, next: nat)
    ensures ParseEntries(es, newId, next).Abrupt? <==> exists i :: 0 <= i < |es| && es[i].val.Null?
  {
    if es != [] {
      var p := es[..|es| - 1];
      ParseAbruptIff(p, newId, next);
      assert forall i :: 0 <= i < |p| ==> p[i] == es[i];
    }
  }

  /** The conditions hold a condition with this attribute, operator and value. */
  ghost predicate HasCondition(r: seq<Condition>, attribute: string, operator: string, v: Value)
  {
    exists k :: 0 <= k < |r| && r[k].attribute == attribute && r[k].operator == operator && r[k].value == v
  }

  /** Some operator key of `ops` parses to this operator and carries this value. */
  ghost predicate OperatorIn(ops: seq<Entry<Value>>, operator: string, v: Value)
  {
    exists j :: 0 <= j < |ops| && RecoverOperator(ops[j].key) == operator && ops[j].val == v
  }

  /** An attribute entry whose object value has an operator key that parses to this condition. */
  ghost predicate EmitsEntry(e: Entry<Value>, attribute: string, operator: string, v: Value)
  {
    IsObjectType(e.val) && e.key == attribute && OperatorIn(OwnEntries(e.val), operator, v)
  }

  /** Some attribute entry emits this condition. */
  ghost predicate Emits(es: seq<Entry<Value>>, attribute: string, operator: string, v: Value)
  {
    exists i {:trigger EmitsEntry(es[i], attribute, operator, v)} :: 0 <= i < |es| && EmitsEntry(es[i], attribute, operator, v)
  }

  lemma HasConditionAppend(a: seq<Condition>, b: seq<Condition>, attribute: string, operator: string, v: Value)
    ensures HasCondition(a + b, attribute, operator, v)
        <==> HasCondition(a, attribute, operator, v) || HasCondition(b, attribute, operator, v)
  {
    if HasCondition(a + b, attribute, operator, v) {
      var k :| 0 <= k < |a + b| && (a + b)[k].attribute == attribute
        && (a + b)[k].operator == operator && (a + b)[k].value == v;
      if k >= |a| { assert (a + b)[k] == b[k - |a|]; }
    }
    if HasCondition(b, attribute, operator, v) {
      var k :| 0 <= k < |b| && b[k].attribute == attribute && b[k].operator == operator && b[k].value == v;
      assert (a + b)[|a| + k] == b[k];
    }
    if HasCondition(a, attribute, operator, v) {
      var k :| 0 <= k < |a| && a[k].attribute == attribute && a[k].operator == operator && a[k].value == v;
      assert (a + b)[k] == a[k];
    }
  }

  /** The conditions pushed for one attribute are exactly its operator keys, recovered. */
  lemma OperatorsMembers(key: string, ops: seq<Entry<Value>>, newId: nat -> string, next: nat,
                         attribute: string, operator: string, v: Value)
    ensures HasCondition(ParseOperators(key, ops, newId, next), attribute, operator, v)
        <==> key == attribute && OperatorIn(ops, operator, v)
  {
    var r := ParseOperators(key, ops, newId, next);
    ParseOperatorsAt(key, ops, newId, next);
    if OperatorIn(ops, operator, v) && key == attribute {
      var j :| 0 <= j < |ops| && RecoverOperator(ops[j].key) == operator && ops[j].val == v;
      assert r[j].attribute == attribute && r[j].operator == operator && r[j].value == v;
    }
  }

  lemma EmitsSnoc(es: seq<Entry<Value>>, attribute: string, operator: string, v: Value)
    requires es != []
    ensures Emits(es, attribute, operator, v)
        <==> Emits(es[..|es| - 1], attribute, operator, v) || EmitsEntry(es[|es| - 1], attribute, operator, v)
  {
    if Emits(es, attribute, operator, v) {
      EmitsSplit(es, attribute, operator, v);
    }
    if Emits(es[..|es| - 1], attribute, operator, v) || EmitsEntry(es[|es| - 1], attribute, operator, v) {
      EmitsJoin(es, attribute, operator, v);
    }
  }

  /** A row emitted by a payload is emitted by its prefix or by its last entry. */
  lemma EmitsSplit(es: seq<Entry<Value>>, attribute: string, operator: string, v: Value)
    requires es != [] && Emits(es, attribute, operator, v)
    ensures Emits(es[..|es| - 1], attribute, operator, v) || EmitsEntry(es[|es| - 1], attribute, operator, v)
  {
    var i :| 0 <= i < |es| && EmitsEntry(es[i], attribute, operator, v);
    if i < |es| - 1 {
      EmitsWitness(es[..|es| - 1], i, attribute, operator, v, es[i]);
    }
  }

  /** An entry that emits a row, found at some index, makes the payload emit it. */
  lemma EmitsWitness(es: seq<Entry<Value>>, i: int, attribute: string, operator: string, v: Value, e: Entry<Value>)
    requires 0 <= i < |es| && es[i] == e && EmitsEntry(e, attribute, operator, v)
    ensures Emits(es, attribute, operator, v)
  {
  }

  /** A row emitted by a prefix or by the last entry is emitted by the payload. */
  lemma EmitsJoin(es: seq<Entry<Value>>, attribute: string, operator: string, v: Value)
    requires es != []
    requires Emits(es[..|es| - 1], attribute, operator, v) || EmitsEntry(es[|es| - 1], attribute, operator, v)
    ensures Emits(es, attribute, operator, v)
  {
    var p := es[..|es| - 1];
    if Emits(p, attribute, operator, v) {
      var i :| 0 <= i < |p| && EmitsEntry(p[i], attribute, operator, v);
      assert p[i] == es[i];
    } else {
      assert 0 <= |es| - 1 < |es|;
    }
  }

  /**
   * Without nulls, parsing emits one condition per (attribute, operator key)
   * of the object-valued attributes and nothing else; other attribute values
   * are skipped.
   */
  lemma {:induction false} ParseEntriesMembers(es: seq<Entry<Value>>, newId: nat -> string, next: nat,
                                               attribute: string, operator: string, v: Value)
    requires forall i :: 0 <= i < |es| ==> !es[i].val.Null?
    ensures ParseEntries(es, newId, next).Normal?
    ensures HasCondition(ParseEntries(es, newId, next).value, attribute, operator, v)
        <==> Emits(es, attribute, operator, v)
  {
    ParseAbruptIff(es, newId, next);
    if es != [] {
      var p := es[..|es| - 1];
      var e := es[|es| - 1];
      assert forall i :: 0 <= i < |p| ==> p[i] == es[i];
      ParseEntriesMembers(p, newId, next, attribute, operator, v);
      EmitsSnoc(es, attribute, operator, v);
      var init := ParseEntries(p, newId, next).value;
      assert !e.val.Null?;
      assert ParseEntries(es, newId, next) == ParseAfter(Normal(init), e, newId, next);
      if IsObjectType(e.val) {
        ParseAfterObject(init, e, newId, next);
        PushedMembers(init, e, newId, next, attribute, operator, v);
      } else {
        assert ParseEntries(es, newId, next) == Normal(init);
        assert !EmitsEntry(e, attribute, operator, v);
      }
    }
  }

  /** The operator conditions of an object-valued attribute are exactly the ones it emits. */
  lemma {:induction false} PushedMembers(init: seq<Condition>, e: Entry<Value>, newId: nat -> string, next: nat,
                                         attribute: string, operator: string, v: Value)
    requires IsObjectType(e.val)
    ensures HasCondition(init + ParseOperators(e.key, OwnEntries(e.val), newId, next + |init|), attribute, operator, v)
        <==> HasCondition(init, attribute, operator, v) || EmitsEntry(e, attribute, operator, v)
  {
    var tail := ParseOperators(e.key, OwnEntries(e.val), newId, next + |init|);
    HasConditionAppend(init, tail, attribute, operator, v);
    OperatorsMembers(e.key, OwnEntries(e.val), newId, next + |init|, attribute, operator, v);
    assert EmitsEntry(e, attribute, operator, v) <==> e.key == attribute && OperatorIn(OwnEntries(e.val), operator, v);
  }

  /** The ids of parsed conditions are the successive fresh ids, in order. */
  lemma {:induction false} ParseIds(es: seq<Entry<Value>>, newId: nat -> string, next: nat)
    requires ParseEntries(es, newId, next).Normal?
    ensures forall k :: 0 <= k < |ParseEntries(es, newId, next).value| ==>
      ParseEntries(es, newId, next).value[k].id == newId(next + k)
  {
    if es != [] {
      var p := es[..|es| - 1];
      var e := es[|es| - 1];
      assert ParseEntries(es, newId, next) == ParseAfter(ParseEntries(p, newId, next), e, newId, next);
      assert ParseEntries(p, newId, next).Normal?;
      ParseIds(p, newId, next);
      var init := ParseEntries(p, newId, next).value;
      if IsObjectType(e.val) {
        ParseAfterObject(init, e, newId, next);
        ParseOperatorsIds(init, e.key, OwnEntries(e.val), newId, next);
      } else {
        assert ParseEntries(es, newId, next) == Normal(init);
      }
    }
  }

  /** Pushing the operator conditions of one attribute keeps the fresh ids in order. */
  lemma {:induction false} ParseOperatorsIds(init: seq<Condition>, attribute: string, ops: seq<Entry<Value>>,
                                             newId: nat -> string, next: nat)
    requires forall k :: 0 <= k < |init| ==> init[k].id == newId(next + k)
    ensures var all := init + ParseOperators(attribute, ops, newId, next + |init|);
      forall k :: 0 <= k < |all| ==> all[k].id == newId(next + k)
  {
    var tail := ParseOperators(attribute, ops, newId, next + |init|);
    assert forall k :: 0 <= k < |tail| ==> tail[k].id == newId(next + |init| + k) by {
      ParseOperatorsAt(attribute, ops, newId, next + |init|);
    }
    FreshIdsAppend(init, tail, newId, next);
  }

  /** Rows numbered from `next` followed by rows numbered from `next + |init|` are numbered from `next`. */
  lemma {:induction false} FreshIdsAppend(init: seq<Condition>, tail: seq<Condition>, newId: nat -> string, next: nat)
    requires forall k :: 0 <= k < |init| ==> init[k].id == newId(next + k)
    requires forall k :: 0 <= k < |tail| ==> tail[k].id == newId(next + |init| + k)
    ensures forall k :: 0 <= k < |init + tail| ==> (init + tail)[k].id == newId(next + k)
  {
    forall k | |init| <= k < |init + tail| ensures (init + tail)[k].id == newId(next + k) {
      assert (init + tail)[k] == tail[k - |init|];
      assert next + |init| + (k - |init|) == next + k;
    }
  }

  /** A mapping whose attribute values are all strings parses to no condition. */
  lemma ParseSkipsNonObjects(es: seq<Entry<Value>>, newId: nat -> string, next: nat)
    requires forall i :: 0 <= i < |es| ==> es[i].val.Str?
    ensures ParseSpec(Obj(es), newId, next) == Normal([])
  {
    if es != [] {
      var p := es[..|es| - 1];
      assert forall i :: 0 <= i < |p| ==> p[i] == es[i];
      ParseSkipsNonObjects(p, newId, next);
      assert p == [] ==> ParseEntries(p, newId, next) == Normal([]);
    }
  }

  // ---------------------------------------------------------------------------
  // The round trip
  // ---------------------------------------------------------------------------

  /** The key `$` + lower-cased operator parses back to the lower-cased operator, capitalised. */
  lemma RecoverOperatorKey(op: string)
    ensures RecoverOperator(OperatorKey(op)) == Capitalize(ToLower(op))
  {
    assert OperatorKey(op)[0] == '$';
  }

  /** An operator survives the round trip unchanged exactly when this holds of it. */
  predicate CanonicalOperator(op: string)
  {
    op != "" ==> !IsLowerAscii(op[0]) && forall i :: 1 <= i < |op| ==> !IsUpperAscii(op[i])
  }

  lemma CanonicalOperatorIff(op: string)
    ensures Capitalize(ToLower(op)) == op <==> CanonicalOperator(op)
  {
    var r := Capitalize(ToLower(op));
    if op != "" {
      if r == op {
        forall i | 1 <= i < |op| ensures !IsUpperAscii(op[i]) {
          assert r[i] == ToLower(op)[i];
        }
      }
      if CanonicalOperator(op) {
        forall i | 0 <= i < |op| ensures r[i] == op[i] {
          if i > 0 { assert r[i] == ToLower(op)[i]; }
        }
      }
    }
  }

  /** Lower-casing an ASCII word is lower-casing each of its letters. */
  lemma LowerWord(s: string, t: string)
    requires |s| == |t|
    requires forall i :: 0 <= i < |s| ==> LowerChar(s[i]) == t[i]
    ensures ToLower(s) == t
  {
  }

  /** `Equals` comes back as `Equals`. */
  lemma EqualsKept()
    ensures Capitalize(ToLower("Equals")) == "Equals"
  {
    CanonicalOperatorIff("Equals");
  }

  /** `NotEquals` comes back as `Notequals`, which no operator menu offers. */
  lemma NotEqualsRecased()
    ensures Capitalize(ToLower("NotEquals")) == "Notequals"
  {
    LowerWord("NotEquals", "notequals");
  }

  /** `GreaterThanEquals` comes back as `Greaterthanequals`. */
  lemma GreaterThanEqualsRecased()
    ensures Capitalize(ToLower("GreaterThanEquals")) == "Greaterthanequals"
  {
    GreaterThanEqualsLowered();
    assert "greaterthanequals"[1..] == "reaterthanequals";
    assert UpperChar('g') == 'G';
    assert Capitalize("greaterthanequals") == ['G'] + "reaterthanequals";
  }

  /** `GreaterThanEquals` lower-cased. */
  lemma GreaterThanEqualsLowered()
    ensures ToLower("GreaterThanEquals") == "greaterthanequals"
  {
    assert "GreaterThanEquals" == "Greater" + "ThanEquals";
    assert "greaterthanequals" == "greater" + "thanequals";
    LowerWord("Greater", "greater");
    LowerWord("ThanEquals", "thanequals");
    ToLowerAppend("Greater", "ThanEquals");
  }

  /** Lower-casing distributes over concatenation. */
  lemma ToLowerAppend(s: string, t: string)
    ensures ToLower(s + t) == ToLower(s) + ToLower(t)
  {
    assert forall i :: 0 <= i < |s| ==> (s + t)[i] == s[i];
    assert forall i :: |s| <= i < |s + t| ==> (s + t)[i] == t[i - |s|];
  }

  // ---------------------------------------------------------------------------
  // One parsed row per (attribute, operator)
  // ---------------------------------------------------------------------------

  /** No two rows share both their attribute and their operator. */
  predicate DistinctPairs(r: seq<Condition>)
  {
    forall k, l :: 0 <= k < l < |r| ==> r[k].attribute != r[l].attribute || r[k].operator != r[l].operator
  }

  /** A key the formatter writes: `$` and then no upper-case letter. */
  predicate LowerKey(k: string)
  {
    |k| > 0 && k[0] == '$' && forall m :: 1 <= m < |k| ==> !IsUpperAscii(k[m])
  }

  predicate LowerOps(ops: seq<Entry<Value>>)
  {
    forall j :: 0 <= j < |ops| ==> LowerKey(ops[j].key)
  }

  predicate LowerGroups(g: Groups)
  {
    forall i :: 0 <= i < |g| ==> LowerOps(g[i].val)
  }

  /** Distinct operator keys of a group parse to distinct operators. */
  predicate OpsDistinct(ops: seq<Entry<Value>>)
  {
    forall j, l :: 0 <= j < l < |ops| ==> RecoverOperator(ops[j].key) != RecoverOperator(ops[l].key)
  }

  /** Every operator key the formatter writes is `$` and a lower-cased operator. */
  lemma {:induction false} FormatLowerKeys(cs: seq<Condition>)
    ensures LowerGroups(FormatGroups(cs))
  {
    if cs != [] {
      var p, c := cs[..|cs| - 1], cs[|cs| - 1];
      var g := FormatGroups(p);
      FormatLowerKeys(p);
      if Kept(c) {
        var old_ops := GroupOf(g, c.attribute);
        assert LowerOps(old_ops) by {
          if Lookup(g, c.attribute).Some? { LookupIn(g, c.attribute); }
        }
        var key := OperatorKey(c.operator);
        assert LowerKey(key);
        var ops := Put(old_ops, key, c.value);
        PutValues(old_ops, key, c.value);
        assert LowerOps(ops) by {
          forall j | 0 <= j < |ops| ensures LowerKey(ops[j].key) {
            if ops[j] != Entry(key, c.value) {
              var m :| 0 <= m < |old_ops| && old_ops[m] == ops[j];
            }
          }
        }
        PutValues(g, c.attribute, ops);
        var g' := Put(g, c.attribute, ops);
        forall i | 0 <= i < |g'| ensures LowerOps(g'[i].val) {
          if g'[i] != Entry(c.attribute, ops) {
            var m :| 0 <= m < |g| && g[m] == g'[i];
          }
        }
      }
    }
  }

  /** Recovering the operator is one-to-one on the keys the formatter writes. */
  lemma RecoverInjective(k1: string, k2: string)
    requires LowerKey(k1) && LowerKey(k2) && RecoverOperator(k1) == RecoverOperator(k2)
    ensures k1 == k2
  {
    var x, y := k1[1..], k2[1..];
    assert RemoveFirstDollar(k1) == x && RemoveFirstDollar(k2) == y;
    CapitalizeShape(x);
    CapitalizeShape(y);
    if x != "" {
      assert !IsUpperAscii(x[0]) && !IsUpperAscii(y[0]);
      assert UpperChar(x[0]) == UpperChar(y[0]);
      assert x[0] == y[0];
      assert x == [x[0]] + x[1..] && y == [y[0]] + y[1..];
    }
    assert k1 == [k1[0]] + x && k2 == [k2[0]] + y;
  }

  /** A group with distinct lower-case keys has distinct parsed operators. */
  lemma GroupOpsDistinct(ops: seq<Entry<Value>>)
    requires UniqueKeys(ops) && LowerOps(ops)
    ensures OpsDistinct(ops)
  {
    forall j, l | 0 <= j < l < |ops| ensures RecoverOperator(ops[j].key) != RecoverOperator(ops[l].key) {
      if RecoverOperator(ops[j].key) == RecoverOperator(ops[l].key) {
        RecoverInjective(ops[j].key, ops[l].key);
      }
    }
  }

  /** The rows of one group all carry its attribute and, with distinct operators, no pair twice. */
  lemma OperatorsDistinct(attribute: string, ops: seq<Entry<Value>>, newId: nat -> string, next: nat)
    requires OpsDistinct(ops)
    ensures var r := ParseOperators(attribute, ops, newId, next);
      DistinctPairs(r) && forall k :: 0 <= k < |r| ==> r[k].attribute == attribute
  {
    ParseOperatorsAt(attribute, ops, newId, next);
  }

  /** Two lists without a repeated pair and with no attribute in common have none together. */
  lemma DistinctAppend(a: seq<Condition>, b: seq<Condition>)
    requires DistinctPairs(a) && DistinctPairs(b)
    requires forall k, l :: 0 <= k < |a| && 0 <= l < |b| ==> a[k].attribute != b[l].attribute
    ensures DistinctPairs(a + b)
  {
    forall k, l | 0 <= k < l < |a + b|
      ensures (a + b)[k].attribute != (a + b)[l].attribute || (a + b)[k].operator != (a + b)[l].operator
    {
      if l < |a| {
        assert (a + b)[k] == a[k] && (a + b)[l] == a[l];
      } else if k >= |a| {
        assert (a + b)[k] == b[k - |a|] && (a + b)[l] == b[l - |a|];
      } else {
        assert (a + b)[k] == a[k] && (a + b)[l] == b[l - |a|];
      }
    }
  }

  /**
   * Object groups under distinct attribute names, each with distinct parsed
   * operators, parse without a throw into rows that repeat no pair and carry
   * only those attribute names.
   */
  lemma {:induction false} ParseDistinct(es: seq<Entry<Value>>, newId: nat -> string, next: nat)
    requires UniqueKeys(es)
    requires forall i :: 0 <= i < |es| ==> es[i].val.Obj? && OpsDistinct(es[i].val.entries)
    ensures ParseEntries(es, newId, next).Normal?
    ensures var r := ParseEntries(es, newId, next).value;
      DistinctPairs(r) && forall k :: 0 <= k < |r| ==> r[k].attribute in Keys(es)
  {
    if es != [] {
      var p, e := es[..|es| - 1], es[|es| - 1];
      assert forall i :: 0 <= i < |p| ==> p[i] == es[i];
      ParseDistinct(p, newId, next);
      var init := ParseEntries(p, newId, next).value;
      assert ParseEntries(es, newId, next) == ParseAfter(Normal(init), e, newId, next);
      assert e.key !in Keys(p) by {
        forall i | 0 <= i < |p| ensures Keys(p)[i] != e.key {
          assert p[i] == es[i];
        }
      }
      KeysSnoc(es);
      PushedDistinct(init, Keys(p), e, newId, next);
    }
  }

  /** The names of a list of entries are those of its prefix and then the last one. */
  lemma KeysSnoc<V>(es: seq<Entry<V>>)
    requires es != []
    ensures Keys(es) == Keys(es[..|es| - 1]) + [es[|es| - 1].key]
  {
    var ks, ps := Keys(es), Keys(es[..|es| - 1]) + [es[|es| - 1].key];
    assert |ks| == |ps|;
    forall i | 0 <= i < |ks| ensures ks[i] == ps[i] {
      if i < |es| - 1 { assert ps[i] == Keys(es[..|es| - 1])[i] == es[i].key; }
    }
  }

  /** One more attribute group, under a new name, keeps the rows free of repeated pairs. */
  lemma PushedDistinct(init: seq<Condition>, names: seq<string>, e: Entry<Value>, newId: nat -> string, next: nat)
    requires DistinctPairs(init) && forall k :: 0 <= k < |init| ==> init[k].attribute in names
    requires e.key !in names && e.val.Obj? && OpsDistinct(e.val.entries)
    ensures ParseAfter(Normal(init), e, newId, next).Normal?
    ensures var r := ParseAfter(Normal(init), e, newId, next).value;
      DistinctPairs(r) && forall k :: 0 <= k < |r| ==> r[k].attribute in names + [e.key]
  {
    ParseAfterObject(init, e, newId, next);
    var tail := ParseOperators(e.key, OwnEntries(e.val), newId, next + |init|);
    OperatorsDistinct(e.key, e.val.entries, newId, next + |init|);
    DistinctAppend(init, tail);
    var r := init + tail;
    forall k | 0 <= k < |r| ensures r[k].attribute in names + [e.key] {
      if k < |init| { assert r[k] == init[k]; } else { assert r[k] == tail[k - |init|]; }
    }
  }

  /** Parsing a formatted list gives at most one row per (attribute, operator). */
  lemma FormatParseDistinct(cs: seq<Condition>, newId: nat -> string, next: nat)
    ensures ParseSpec(FormatValue(cs), newId, next).Normal?
    ensures DistinctPairs(ParseSpec(FormatValue(cs), newId, next).value)
  {
    var g := FormatGroups(cs);
    FormatWellFormed(cs);
    FormatLowerKeys(cs);
    GroupsParseDistinct(g, newId, next);
    assert ParseSpec(FormatValue(cs), newId, next) == ParseEntries(GroupsToValue(g).entries, newId, next);
  }

  /** Well-formed groups with the formatter's keys parse into rows that repeat no pair. */
  lemma GroupsParseDistinct(g: Groups, newId: nat -> string, next: nat)
    requires WellFormedGroups(g) && LowerGroups(g)
    ensures ParseEntries(GroupsToValue(g).entries, newId, next).Normal?
    ensures DistinctPairs(ParseEntries(GroupsToValue(g).entries, newId, next).value)
  {
    var es := GroupsToValue(g).entries;
    forall i | 0 <= i < |es| ensures es[i].val.Obj? && OpsDistinct(es[i].val.entries) {
      GroupOpsDistinct(g[i].val);
    }
    assert UniqueKeys(es) by {
      forall i, j | 0 <= i < j < |es| ensures es[i].key != es[j].key {
        assert es[i].key == g[i].key && es[j].key == g[j].key;
      }
    }
    ParseDistinct(es, newId, next);
  }

  /**
   * Formatting then parsing yields exactly one condition per kept
   * (attribute, lower-cased operator): the attribute, the operator lower-cased
   * and capitalised, and the value of the last condition stored there; no
   * (attribute, operator) pair comes back twice. Ids are the fresh ids in order.
   */
  lemma RoundTrip(cs: seq<Condition>, newId: nat -> string, next: nat)
    ensures ParseSpec(FormatValue(cs), newId, next).Normal?
    ensures forall k :: 0 <= k < |ParseSpec(FormatValue(cs), newId, next).value| ==>
      ParseSpec(FormatValue(cs), newId, next).value[k].id == newId(next + k)
    ensures forall attribute, operator, v ::
      HasCondition(ParseSpec(FormatValue(cs), newId, next).value, attribute, operator, v) <==>
        Produces(cs, attribute, operator, v)
    ensures DistinctPairs(ParseSpec(FormatValue(cs), newId, next).value)
  {
    var g := FormatGroups(cs);
    var es := FormatValue(cs).entries;
    FormatParseDistinct(cs, newId, next);
    assert forall i :: 0 <= i < |es| ==> es[i] == Entry(g[i].key, Obj(g[i].val));
    ParseAbruptIff(es, newId, next);
    assert ParseSpec(FormatValue(cs), newId, next) == ParseEntries(es, newId, next);
    ParseIds(es, newId, next);
    FormatWellFormed(cs);
    forall attribute, operator, v
      ensures HasCondition(ParseSpec(FormatValue(cs), newId, next).value, attribute, operator, v) <==>
        Produces(cs, attribute, operator, v)
    {
      ParseEntriesMembers(es, newId, next, attribute, operator, v);
      if Emits(es, attribute, operator, v) {
        RoundTripSound(cs, attribute, operator, v);
      }
      if Produces(cs, attribute, operator, v) {
        var c :| 0 <= c < |cs| && ProducedBy(cs, c, attribute, operator, v);
        RoundTripComplete(cs, c, v);
      }
    }
  }

  /**
   * Condition `i` is kept, stored under `attribute`, its operator comes back
   * as `operator`, and `v` is the last value stored at its place.
   */
  predicate ProducedBy(cs: seq<Condition>, i: nat, attribute: string, operator: string, v: Value)
    requires i < |cs|
  {
    Kept(cs[i]) && cs[i].attribute == attribute && Capitalize(ToLower(cs[i].operator)) == operator
    && LastStored(cs, attribute, OperatorKey(cs[i].operator)) == Some(v)
  }

  /** Some condition of `cs` produces this parsed condition. */
  ghost predicate Produces(cs: seq<Condition>, attribute: string, operator: string, v: Value)
  {
    exists i :: 0 <= i < |cs| && ProducedBy(cs, i, attribute, operator, v)
  }

  /** In a well-formed mapping, an emitted condition is read back at its attribute and operator key. */
  lemma EmittedFromGroups(g: Groups, attribute: string, operator: string, v: Value) returns (key: string)
    requires WellFormedGroups(g)
    requires Emits(GroupsToValue(g).entries, attribute, operator, v)
    ensures RecoverOperator(key) == operator && Lookup(GroupOf(g, attribute), key) == Some(v)
  {
    var es := GroupsToValue(g).entries;
    var i :| 0 <= i < |es| && EmitsEntry(es[i], attribute, operator, v);
    var ops := g[i].val;
    assert es[i] == Entry(g[i].key, Obj(ops));
    var j :| 0 <= j < |ops| && RecoverOperator(ops[j].key) == operator && ops[j].val == v;
    key := ops[j].key;
    LookupUnique(g, attribute, ops);
    assert g[i] == Entry(attribute, ops);
    LookupUnique(ops, key, v);
    assert ops[j] == Entry(key, v);
  }

  /** An emitted condition comes from an operator key whose last stored value is `v`. */
  lemma EmittedKey(cs: seq<Condition>, attribute: string, operator: string, v: Value) returns (key: string)
    requires Emits(FormatValue(cs).entries, attribute, operator, v)
    ensures RecoverOperator(key) == operator && LastStored(cs, attribute, key) == Some(v)
  {
    FormatWellFormed(cs);
    key := EmittedFromGroups(FormatGroups(cs), attribute, operator, v);
    FormatLookup(cs, attribute, key);
  }

  /** Whatever the formatted entries emit comes from a kept condition, with the last value stored there. */
  lemma RoundTripSound(cs: seq<Condition>, attribute: string, operator: string, v: Value)
    requires Emits(FormatValue(cs).entries, attribute, operator, v)
    ensures Produces(cs, attribute, operator, v)
  {
    var key := EmittedKey(cs, attribute, operator, v);
    LastStoredIsLast(cs, attribute, key, v);
    var c :| LastAt(cs, c, attribute, key) && cs[c].value == v;
    RecoverOperatorKey(cs[c].operator);
    assert ProducedBy(cs, c, attribute, operator, v);
  }

  /** Whatever a mapping holds at an attribute and operator key is emitted. */
  lemma GroupsEmit(g: Groups, attribute: string, key: string, v: Value)
    requires Lookup(GroupOf(g, attribute), key) == Some(v)
    ensures Emits(GroupsToValue(g).entries, attribute, RecoverOperator(key), v)
  {
    var es := GroupsToValue(g).entries;
    var ops := GroupOf(g, attribute);
    LookupIn(g, attribute);
    var i :| 0 <= i < |g| && g[i] == Entry(attribute, Lookup(g, attribute).value);
    LookupIn(ops, key);
    var j :| 0 <= j < |ops| && ops[j] == Entry(key, v);
    var e := Entry(attribute, Obj(ops));
    assert es[i] == e;
    assert OperatorIn(ops, RecoverOperator(key), v) by {
      assert ops[j].key == key && ops[j].val == v;
    }
    EmitsWitness(es, i, attribute, RecoverOperator(key), v, e);
  }

  /** Every kept condition is emitted by the formatted entries, with the last value stored there. */
  lemma RoundTripComplete(cs: seq<Condition>, c: nat, v: Value)
    requires c < |cs| && Kept(cs[c])
    requires LastStored(cs, cs[c].attribute, OperatorKey(cs[c].operator)) == Some(v)
    ensures Emits(FormatValue(cs).entries, cs[c].attribute, Capitalize(ToLower(cs[c].operator)), v)
  {
    FormatLookup(cs, cs[c].attribute, OperatorKey(cs[c].operator));
    GroupsEmit(FormatGroups(cs), cs[c].attribute, OperatorKey(cs[c].operator), v);
    RecoverOperatorKey(cs[c].operator);
  }

  /** The formatted payload of the one-condition example. */
  lemma FormatExample()
    ensures FormatValue([Condition("1", "age", "GreaterThan", Str("18"))])
      == Obj([Entry("age", Obj([Entry("$greaterthan", Str("18"))]))])
  {
    var cs := [Condition("1", "age", "GreaterThan", Str("18"))];
    LowerWord("GreaterThan", "greaterthan");
    assert OperatorKey("GreaterThan") == "$greaterthan";
    TrimNonEmpty("18");
    assert !IsWhiteSpace("18"[0]);
    assert Kept(cs[0]);
    assert cs[..0] == [];
    var ops := [Entry("$greaterthan", Str("18"))];
    assert FormatGroups(cs) == [Entry("age", ops)];
    assert GroupsToValue([Entry("age", ops)]).entries[0] == Entry("age", Obj(ops));
  }
}
