/**
 * The filter's local state and its operations: the condition rows, the sort
 * selection, the archive flag and the error message, with adding, removing,
 * updating and resetting rows, the validation that builds the payload, and
 * the operator menu per attribute type.
 */
module FilterLogic {
  import opened JsValues
  import opened FilterTypes
  import opened FilterUtils

  // ---------------------------------------------------------------------------
  // Rows
  // ---------------------------------------------------------------------------

  /** `createEmptyCondition`, given the id `generateUniqueId` returned. */
  function EmptyCondition(id: string): (c: Condition)
    ensures c.id == id && c.attribute == "" && c.operator == "Equals" && c.value == Str("")
    ensures !Kept(c) && !IsValidValue(c.value)
  {
    Condition(id, "", "Equals", Str(""))
  }

  /** `Array.from({ length: n }, createEmptyCondition)` with ids drawn from `next` on. */
  function EmptyConditions(n: nat, newId: nat -> string, next: nat): (r: seq<Condition>)
    ensures |r| == n
    ensures forall k :: 0 <= k < n ==> r[k] == EmptyCondition(newId(next + k))
  {
    seq(n, k requires 0 <= k < n => EmptyCondition(newId(next + k)))
  }

  /** `prev.filter(condition => condition.id !== id)` */
  function RemoveById(cs: seq<Condition>, id: string): seq<Condition>
  {
    if cs == [] then []
    else
      var init := RemoveById(cs[..|cs| - 1], id);
      if cs[|cs| - 1].id != id then init + [cs[|cs| - 1]] else init
  }

  /** The filter keeps exactly the rows whose id differs and invents none. */
  lemma {:induction false} RemoveByIdMembers(cs: seq<Condition>, id: string)
    ensures |RemoveById(cs, id)| <= |cs|
    ensures forall c :: c in RemoveById(cs, id) <==> c in cs && c.id != id
  {
    if cs != [] {
      var p, c := cs[..|cs| - 1], cs[|cs| - 1];
      RemoveByIdMembers(p, id);
      assert cs == p + [c];
      assert forall d :: d in cs <==> d in p || d == c;
    }
  }

  /**
   * Removal keeps the order of the remaining rows: it distributes over
   * concatenation, and a single row stays iff its id differs.
   */
  lemma {:induction false} RemoveByIdAppend(a: seq<Condition>, b: seq<Condition>, id: string)
    ensures RemoveById(a + b, id) == RemoveById(a, id) + RemoveById(b, id)
    ensures |a| == 1 ==> RemoveById(a, id) == if a[0].id != id then a else []
    decreases |b|
  {
    if |a| == 1 {
      assert a[..0] == [];
    }
    if b == [] {
      assert a + b == a;
    } else {
      var b' := b[..|b| - 1];
      assert (a + b)[..|a + b| - 1] == a + b';
      assert (a + b)[|a + b| - 1] == b[|b| - 1];
      RemoveByIdAppend(a, b', id);
    }
  }

  /** Removing an id no row carries leaves the rows as they are. */
  lemma {:induction false} RemoveAbsentId(cs: seq<Condition>, id: string)
    requires forall i :: 0 <= i < |cs| ==> cs[i].id != id
    ensures RemoveById(cs, id) == cs
  {
    if cs != [] {
      var p := cs[..|cs| - 1];
      RemoveAbsentId(p, id);
      assert cs == p + [cs[|cs| - 1]];
    }
  }

  /** Removing twice is removing once. */
  lemma RemoveTwice(cs: seq<Condition>, id: string)
    ensures RemoveById(RemoveById(cs, id), id) == RemoveById(cs, id)
  {
    var r := RemoveById(cs, id);
    RemoveByIdMembers(cs, id);
    assert forall i :: 0 <= i < |r| ==> r[i] in r;
    RemoveAbsentId(r, id);
  }

  /**
   * One row after `updateCondition(id, field, value)`: a new attribute resets
   * the operator to `Equals` and the value to ""; a new operator resets the
   * value to `["", ""]` for `Between` on a `Date` attribute and to "" otherwise;
   * `id` and `value` are plain assignments.
   */
  function UpdatedCondition(options: seq<AttributeOption>, c: Condition, update: ConditionUpdate): (r: Condition)
    ensures update.SetId? ==> r == c.(id := update.id)
    ensures update.SetValue? ==> r == c.(value := update.value)
    ensures !update.SetId? ==> r.id == c.id
    ensures update.SetAttribute? ==>
      r.attribute == update.attribute && r.operator == "Equals" && r.value == Str("")
    ensures update.SetOperator? ==> r.attribute == c.attribute && r.operator == update.operator
    ensures update.SetOperator? ==>
      r.value == if update.operator == "Between" && FindOption(options, c.attribute).Some?
                    && FindOption(options, c.attribute).value.attributeType == Date
                 then Arr([Str(""), Str("")]) else Str("")
    ensures update.SetAttribute? || update.SetOperator? ==> !IsValidValue(r.value)
  {
    match update
    case SetId(id) => c.(id := id)
    case SetAttribute(attribute) => c.(attribute := attribute, operator := "Equals", value := Str(""))
    case SetOperator(operator) =>
      var option := FindOption(options, c.attribute);
      var isDate := option.Some? && option.value.attributeType == Date;
      if operator == "Between" && isDate then
        var r := c.(operator := operator, value := Arr([Str(""), Str("")]));
        assert Str("") in r.value.items;
        r
      else c.(operator := operator, value := Str(""))
    case SetValue(value) => c.(value := value)
  }

  /** `prev.map(...)`: the rows carrying `id` are updated, the others kept. */
  function UpdateById(options: seq<AttributeOption>, cs: seq<Condition>, id: string, update: ConditionUpdate)
    : (r: seq<Condition>)
    ensures |r| == |cs|
    ensures forall i :: 0 <= i < |cs| && cs[i].id != id ==> r[i] == cs[i]
    ensures forall i :: 0 <= i < |cs| && cs[i].id == id ==> r[i] == UpdatedCondition(options, cs[i], update)
  {
    seq(|cs|, i requires 0 <= i < |cs| => if cs[i].id != id then cs[i] else UpdatedCondition(options, cs[i], update))
  }

  /** Updating an id no row carries changes nothing. */
  lemma UpdateAbsentId(options: seq<AttributeOption>, cs: seq<Condition>, id: string, update: ConditionUpdate)
    requires forall i :: 0 <= i < |cs| ==> cs[i].id != id
    ensures UpdateById(options, cs, id, update) == cs
  {
  }

  // ---------------------------------------------------------------------------
  // Validation
  // ---------------------------------------------------------------------------

  /** The message `validateAndBuildParams` reports when there is nothing to apply. */
  const NothingToApply: string := "At least one valid filter condition or sort option is required."

  /** A row `validateAndBuildParams` keeps: trimmed attribute and operator non-empty, and a valid value. */
  predicate IsValidFilter(c: Condition)
  {
    Trim(c.attribute) != "" && Trim(c.operator) != "" && IsValidValue(c.value)
  }

  /** The valid rows, in order. */
  function ValidFilters(cs: seq<Condition>): (r: seq<Condition>)
    ensures |r| <= |cs|
    ensures forall i :: 0 <= i < |r| ==> r[i] in cs && IsValidFilter(r[i])
    ensures forall c :: c in cs && IsValidFilter(c) ==> c in r
  {
    if cs == [] then []
    else
      var init := ValidFilters(cs[..|cs| - 1]);
      var c := cs[|cs| - 1];
      assert forall d :: d in cs ==> d in cs[..|cs| - 1] || d == c;
      if IsValidFilter(c) then init + [c] else init
  }

  /**
   * The valid rows keep their order: the filter distributes over
   * concatenation, and a single row stays iff it is valid.
   */
  lemma {:induction false} ValidFiltersAppend(a: seq<Condition>, b: seq<Condition>)
    ensures ValidFilters(a + b) == ValidFilters(a) + ValidFilters(b)
    ensures |a| == 1 ==> ValidFilters(a) == if IsValidFilter(a[0]) then a else []
    decreases |b|
  {
    if |a| == 1 {
      assert a[..0] == [];
    }
    if b == [] {
      assert a + b == a;
    } else {
      var b' := b[..|b| - 1];
      assert (a + b)[..|a + b| - 1] == a + b';
      assert (a + b)[|a + b| - 1] == b[|b| - 1];
      ValidFiltersAppend(a, b');
    }
  }

  /** Trimming the empty string gives the empty string. */
  lemma TrimEmpty()
    ensures Trim("") == ""
  {
  }

  /** Every valid row is one the formatter keeps (but not conversely: it does not trim). */
  lemma ValidIsKept(c: Condition)
    ensures IsValidFilter(c) ==> Kept(c)
    ensures Kept(Condition(c.id, " ", "Equals", Str("x"))) && !IsValidFilter(Condition(c.id, " ", "Equals", Str("x")))
  {
    TrimEmpty();
    TrimNonEmpty(" ");
    TrimNonEmpty("x");
    assert !IsWhiteSpace("x"[0]);
  }

  /** The result of `validateAndBuildParams`. */
  datatype Validation = Valid(params: FilterParams) | Invalid(error: string)

  /** Whether both sort fields are set (`!!(sortField && sortOrder)`). */
  predicate HasValidSort(sortField: string, sortOrder: string)
  {
    sortField != "" && sortOrder != ""
  }

  /**
   * `validateAndBuildParams`: rejected when there is neither a valid row nor
   * both sort fields; otherwise page 1, forcePage 0, the archive flag, the
   * formatted valid rows when there are any and the sort when both fields
   * are set.
   */
  function Validate(cs: seq<Condition>, sortField: string, sortOrder: string, archive: bool): (r: Validation)
    ensures r.Invalid? <==> (forall c :: c in cs ==> !IsValidFilter(c)) && !HasValidSort(sortField, sortOrder)
    ensures r.Invalid? ==> r.error == NothingToApply
    ensures r.Valid? ==>
      r.params.page == Some(1) && r.params.forcePage == Some(0) && r.params.isDeleted == Some(archive)
    ensures r.Valid? ==>
      (r.params.customFilter.Some? <==> exists c :: c in cs && IsValidFilter(c))
    ensures r.Valid? && r.params.customFilter.Some? ==> r.params.customFilter.value == FormatValue(ValidFilters(cs))
    ensures r.Valid? ==>
      (r.params.customSortFilter.Some? <==> HasValidSort(sortField, sortOrder))
    ensures r.Valid? && r.params.customSortFilter.Some? ==>
      r.params.customSortFilter.value == SortFilter(Some(SortConfig(sortField, sortOrder)))
  {
    var validFilters := ValidFilters(cs);
    var hasValidSort := HasValidSort(sortField, sortOrder);
    var hasValidFilter := |validFilters| > 0;
    assert hasValidFilter ==> validFilters[0] in cs;
    if !hasValidSort && !hasValidFilter then Invalid(NothingToApply)
    else
      Valid(FilterParams(
        if hasValidFilter then Some(FormatValue(validFilters)) else None,
        if hasValidSort then Some(SortFilter(Some(SortConfig(sortField, sortOrder)))) else None,
        Some(1), Some(0), Some(archive)))
  }

  /** The formatter's object has the attributes of its mapping. */
  lemma GroupsKeys(g: Groups)
    ensures Keys(GroupsToValue(g).entries) == Keys(g)
  {
  }

  /** Among the valid rows, the kept ones with an attribute are the valid rows with that attribute. */
  lemma ValidKept(cs: seq<Condition>, attribute: string)
    ensures KeptUnder(ValidFilters(cs), attribute) <==> exists c :: c in cs && IsValidFilter(c) && c.attribute == attribute
  {
    var vs := ValidFilters(cs);
    if exists c :: c in cs && IsValidFilter(c) && c.attribute == attribute {
      var c :| c in cs && IsValidFilter(c) && c.attribute == attribute;
      ValidIsKept(c);
      var i :| 0 <= i < |vs| && vs[i] == c;
      assert Kept(vs[i]) && vs[i].attribute == attribute;
    }
  }

  /** The attributes of the formatted valid rows are exactly those of the valid rows. */
  lemma ValidAttributes(cs: seq<Condition>, attribute: string)
    ensures attribute in Keys(FormatValue(ValidFilters(cs)).entries)
        <==> exists c :: c in cs && IsValidFilter(c) && c.attribute == attribute
  {
    FormatAttributes(ValidFilters(cs), attribute);
    GroupsKeys(FormatGroups(ValidFilters(cs)));
    ValidKept(cs, attribute);
  }

  /** The attributes of the payload's filter are exactly those of the valid rows. */
  lemma PayloadAttributes(cs: seq<Condition>, sortField: string, sortOrder: string, archive: bool, attribute: string)
    requires Validate(cs, sortField, sortOrder, archive).Valid?
    requires Validate(cs, sortField, sortOrder, archive).params.customFilter.Some?
    ensures attribute in Keys(Validate(cs, sortField, sortOrder, archive).params.customFilter.value.entries)
        <==> exists c :: c in cs && IsValidFilter(c) && c.attribute == attribute
  {
    ValidAttributes(cs, attribute);
  }

  /**
   * The payload's filter parses back without throwing, into one row per
   * valid (attribute, lower-cased operator) with the last value given there.
   */
  lemma PayloadParses(cs: seq<Condition>, sortField: string, sortOrder: string, archive: bool,
                      newId: nat -> string, next: nat)
    requires Validate(cs, sortField, sortOrder, archive).Valid?
    requires Validate(cs, sortField, sortOrder, archive).params.customFilter.Some?
    ensures ParseSpec(Validate(cs, sortField, sortOrder, archive).params.customFilter.value, newId, next).Normal?
    ensures forall attribute, operator, v ::
      (HasCondition(ParseSpec(Validate(cs, sortField, sortOrder, archive).params.customFilter.value, newId, next).value,
                    attribute, operator, v)
       <==> Produces(ValidFilters(cs), attribute, operator, v))
    ensures DistinctPairs(ParseSpec(Validate(cs, sortField, sortOrder, archive).params.customFilter.value, newId, next).value)
  {
    RoundTrip(ValidFilters(cs), newId, next);
  }

  /** An empty row never makes the filter applicable, so adding one does not change the payload. */
  lemma {:induction false} AddKeepsValidation(cs: seq<Condition>, id: string, sortField: string,
                                              sortOrder: string, archive: bool)
    ensures Validate(cs + [EmptyCondition(id)], sortField, sortOrder, archive)
         == Validate(cs, sortField, sortOrder, archive)
  {
    var more := cs + [EmptyCondition(id)];
    assert more[..|more| - 1] == cs;
    TrimEmpty();
    assert ValidFilters(more) == ValidFilters(cs);
    assert forall c :: c in more ==> c in cs || c == EmptyCondition(id);
  }

  /** Freshly reset rows and sort give the "nothing to apply" error. */
  lemma ResetIsInvalid(n: nat, newId: nat -> string, next: nat, archive: bool)
    ensures Validate(EmptyConditions(n, newId, next), "", "", archive) == Invalid(NothingToApply)
  {
    TrimEmpty();
  }

  // ---------------------------------------------------------------------------
  // Operator menus
  // ---------------------------------------------------------------------------

  const DefaultOperators: seq<OperatorOption> := [
    OperatorOption("Equals", "Equals"),
    OperatorOption("Not Equals", "NotEquals"),
    OperatorOption("Contains", "Like")]

  const SelectOperators: seq<OperatorOption> := [
    OperatorOption("Equals", "Equals"),
    OperatorOption("Not Equals", "NotEquals")]

  const DateOperators: seq<OperatorOption> := [
    OperatorOption("Equals", "Equals"),
    OperatorOption("Not Equals", "NotEquals"),
    OperatorOption("Before", "LessThan"),
    OperatorOption("After", "GreaterThan"),
    OperatorOption("Between", "Between")]

  const NumberOperators: seq<OperatorOption> := [
    OperatorOption("Equals", "Equals"),
    OperatorOption("Not Equals", "NotEquals"),
    OperatorOption("Greater Than", "GreaterThan"),
    OperatorOption("Less Than", "LessThan"),
    OperatorOption("Greater Than Equals", "GreaterThanEquals"),
    OperatorOption("Less Than Equals", "LessThanEquals")]

  /** Whether a menu offers this operator token. */
  predicate Offers(menu: seq<OperatorOption>, token: string)
  {
    exists i :: 0 <= i < |menu| && menu[i].value == token
  }

  /**
   * `getOperatorsForAttribute`: the menu of the first option with that key,
   * by its type; unknown keys and `Text` get the default menu.
   */
  function GetOperatorsForAttribute(options: seq<AttributeOption>, attribute: string): (r: seq<OperatorOption>)
    ensures |r| >= 2 && r[0] == OperatorOption("Equals", "Equals") && r[1] == OperatorOption("Not Equals", "NotEquals")
    ensures Offers(r, "Between") <==>
      FindOption(options, attribute).Some? && FindOption(options, attribute).value.attributeType == Date
    ensures Offers(r, "GreaterThanEquals") <==>
      FindOption(options, attribute).Some? && FindOption(options, attribute).value.attributeType == Number
    ensures Offers(r, "Like") <==>
      FindOption(options, attribute).None? || FindOption(options, attribute).value.attributeType == Text
    ensures |r| == 2 <==>
      FindOption(options, attribute).Some? && FindOption(options, attribute).value.attributeType in {Select, DropDown}
    ensures FindOption(options, attribute).None? ==> r == DefaultOperators
    ensures FindOption(options, attribute).Some? ==>
      r == match FindOption(options, attribute).value.attributeType
           case Date => DateOperators
           case Number => NumberOperators
           case Select => SelectOperators
           case DropDown => SelectOperators
           case Text => DefaultOperators
  {
    var option := FindOption(options, attribute);
    var r :=
      if option.None? then DefaultOperators
      else match option.value.attributeType
        case Date => DateOperators
        case Number => NumberOperators
        case Select => SelectOperators
        case DropDown => SelectOperators
        case Text => DefaultOperators;
    DefaultMenuOffers();
    SelectMenuOffers();
    DateMenuOffers();
    NumberMenuOffers();
    r
  }

  /** The default menu offers `Like` but neither `Between` nor `GreaterThanEquals`. */
  lemma DefaultMenuOffers()
    ensures Offers(DefaultOperators, "Like")
    ensures !Offers(DefaultOperators, "Between") && !Offers(DefaultOperators, "GreaterThanEquals")
  {
    assert DefaultOperators[2].value == "Like";
  }

  /** The select menu offers none of `Like`, `Between` and `GreaterThanEquals`. */
  lemma SelectMenuOffers()
    ensures !Offers(SelectOperators, "Like")
    ensures !Offers(SelectOperators, "Between") && !Offers(SelectOperators, "GreaterThanEquals")
  {
  }

  /** The date menu offers `Between` but neither `Like` nor `GreaterThanEquals`. */
  lemma DateMenuOffers()
    ensures Offers(DateOperators, "Between")
    ensures !Offers(DateOperators, "Like") && !Offers(DateOperators, "GreaterThanEquals")
  {
    assert DateOperators[4].value == "Between";
  }

  /** The number menu offers `GreaterThanEquals` but neither `Like` nor `Between`. */
  lemma NumberMenuOffers()
    ensures Offers(NumberOperators, "GreaterThanEquals")
    ensures !Offers(NumberOperators, "Like") && !Offers(NumberOperators, "Between")
  {
    assert NumberOperators[4].value == "GreaterThanEquals";
  }

  /** Every token a menu offers is one of eight. */
  lemma MenuToken(options: seq<AttributeOption>, attribute: string, i: nat)
    requires i < |GetOperatorsForAttribute(options, attribute)|
    ensures GetOperatorsForAttribute(options, attribute)[i].value
      in {"Equals", "NotEquals", "Like", "LessThan", "GreaterThan", "Between", "GreaterThanEquals", "LessThanEquals"}
  {
  }

  /** A token with an upper-case letter after the first comes back re-cased. */
  lemma CamelTokenRecased(token: string, k: nat)
    requires 1 <= k < |token| && IsUpperAscii(token[k])
    ensures Capitalize(ToLower(token)) != token
  {
    CanonicalOperatorIff(token);
  }

  /** A token without upper-case letters after the first comes back unchanged. */
  lemma PlainTokenKept(token: string)
    requires token in {"Equals", "Like", "Between"}
    ensures Capitalize(ToLower(token)) == token
  {
    CanonicalOperatorIff(token);
  }

  /** Of the eight menu tokens, exactly `Equals`, `Like` and `Between` survive re-casing. */
  lemma TokenRecasing(token: string)
    requires token in {"Equals", "NotEquals", "Like", "LessThan", "GreaterThan", "Between",
                       "GreaterThanEquals", "LessThanEquals"}
    ensures Capitalize(ToLower(token)) == token <==> token in {"Equals", "Like", "Between"}
  {
    if token == "NotEquals" {
      CamelTokenRecased(token, 3);
    } else if token == "LessThan" || token == "LessThanEquals" {
      CamelTokenRecased(token, 4);
    } else if token == "GreaterThan" || token == "GreaterThanEquals" {
      CamelTokenRecased(token, 7);
    } else {
      PlainTokenKept(token);
    }
  }

  /**
   * Of every token any menu offers, only `Equals`, `Like` and `Between` come
   * back unchanged from formatting then parsing; the camel-cased ones come
   * back as tokens no menu offers.
   */
  lemma MenuTokensAfterRoundTrip(options: seq<AttributeOption>, attribute: string, i: nat)
    requires i < |GetOperatorsForAttribute(options, attribute)|
    ensures var token := GetOperatorsForAttribute(options, attribute)[i].value;
      Capitalize(ToLower(token)) == token <==> token in {"Equals", "Like", "Between"}
  {
    MenuToken(options, attribute, i);
    TokenRecasing(GetOperatorsForAttribute(options, attribute)[i].value);
  }

  // ---------------------------------------------------------------------------
  // The state
  // ---------------------------------------------------------------------------

  /** The rows the state starts with; `Abrupt` when parsing the initial filter throws. */
  function InitialConditions(initialFilters: Option<FilterParams>, count: nat, newId: nat -> string)
    : (r: Completion<seq<Condition>>)
    ensures (initialFilters.None? || initialFilters.value.customFilter.None?) ==>
      r == Normal(EmptyConditions(count, newId, 0))
    ensures initialFilters.Some? && initialFilters.value.customFilter.Some? ==>
      var customFilter := initialFilters.value.customFilter.value;
      r == if Truthy(customFilter) then ParseSpec(customFilter, newId, 0) else Normal(EmptyConditions(count, newId, 0))
  {
    if initialFilters.Some? && initialFilters.value.customFilter.Some? && Truthy(initialFilters.value.customFilter.value)
    then ParseSpec(initialFilters.value.customFilter.value, newId, 0)
    else Normal(EmptyConditions(count, newId, 0))
  }

  /** An initial filter `{}` is truthy, so the state starts with no rows at all rather than the default ones. */
  lemma EmptyPayloadNoRows(initialFilters: FilterParams, count: nat, newId: nat -> string)
    requires initialFilters.customFilter == Some(Obj([]))
    ensures InitialConditions(Some(initialFilters), count, newId) == Normal([])
  {
    assert OwnEntries(Obj([])) == [];
  }

  /** `initialFilters?.customSortFilter?.sort?.field || ""` */
  function InitialSortField(initialFilters: Option<FilterParams>): string
  {
    if initialFilters.Some? && initialFilters.value.customSortFilter.Some?
       && initialFilters.value.customSortFilter.value.sort.Some?
    then initialFilters.value.customSortFilter.value.sort.value.field
    else ""
  }

  /** `initialFilters?.customSortFilter?.sort?.order || ""` */
  function InitialSortOrder(initialFilters: Option<FilterParams>): string
  {
    if initialFilters.Some? && initialFilters.value.customSortFilter.Some?
       && initialFilters.value.customSortFilter.value.sort.Some?
    then initialFilters.value.customSortFilter.value.sort.value.order
    else ""
  }

  /** `initialFilters?.isDeleted || false` */
  function InitialArchive(initialFilters: Option<FilterParams>): bool
  {
    initialFilters.Some? && initialFilters.value.isDeleted == Some(true)
  }

  /**
   * Handing the applied payload back as the initial filter restores the sort
   * field and order (when both were set) and the archive flag.
   */
  lemma ReopenSettings(cs: seq<Condition>, sortField: string, sortOrder: string, archive: bool)
    requires Validate(cs, sortField, sortOrder, archive).Valid?
    ensures var p := Some(Validate(cs, sortField, sortOrder, archive).params);
      && InitialSortField(p) == (if HasValidSort(sortField, sortOrder) then sortField else "")
      && InitialSortOrder(p) == (if HasValidSort(sortField, sortOrder) then sortOrder else "")
      && InitialArchive(p) == archive
  {
  }

  /**
   * Handing the applied payload back as the initial filter never throws: it
   * yields the default empty rows when no row was valid, and otherwise exactly
   * one row per (attribute, lower-cased operator) the valid rows produce,
   * with the last value given there.
   */
  lemma ReopenConditions(cs: seq<Condition>, sortField: string, sortOrder: string, archive: bool,
                         count: nat, newId: nat -> string)
    requires Validate(cs, sortField, sortOrder, archive).Valid?
    ensures var r := InitialConditions(Some(Validate(cs, sortField, sortOrder, archive).params), count, newId);
      && r.Normal?
      && ((forall c :: c in cs ==> !IsValidFilter(c)) ==> r.value == EmptyConditions(count, newId, 0))
      && ((exists c :: c in cs && IsValidFilter(c)) ==> DistinctPairs(r.value))
      && forall attribute, operator, v ::
           (exists c :: c in cs && IsValidFilter(c)) ==>
             (HasCondition(r.value, attribute, operator, v) <==> Produces(ValidFilters(cs), attribute, operator, v))
  {
    var p := Validate(cs, sortField, sortOrder, archive).params;
    if p.customFilter.Some? {
      PayloadParses(cs, sortField, sortOrder, archive, newId, 0);
      assert Truthy(p.customFilter.value);
    }
  }

  /**
   * The state of one filter widget. `newId(k)` stands for the `k`-th id
   * `generateUniqueId` hands out and `issued` counts the ids drawn so far.
   */
  class FilterState {
    const attributeOptions: seq<AttributeOption>
    const defaultConditionsCount: nat
    const newId: nat -> string
    var issued: nat
    var conditions: seq<Condition>
    var sortField: string
    var sortOrder: string
    var archive: bool
    var error: string

    constructor(attributeOptions: seq<AttributeOption>, initialFilters: Option<FilterParams>,
                defaultConditionsCount: nat, newId: nat -> string)
      requires InitialConditions(initialFilters, defaultConditionsCount, newId).Normal?
      ensures this.attributeOptions == attributeOptions && this.defaultConditionsCount == defaultConditionsCount
      ensures this.newId == newId
      ensures conditions == InitialConditions(initialFilters, defaultConditionsCount, newId).value
      ensures issued == |conditions|
      ensures sortField == InitialSortField(initialFilters) && sortOrder == InitialSortOrder(initialFilters)
      ensures archive == InitialArchive(initialFilters) && error == ""
    {
      this.attributeOptions := attributeOptions;
      this.defaultConditionsCount := defaultConditionsCount;
      this.newId := newId;
      var initial: seq<Condition>;
      if initialFilters.Some? && initialFilters.value.customFilter.Some?
         && Truthy(initialFilters.value.customFilter.value) {
        var parsed := ParseFilterConditions(initialFilters.value.customFilter.value, newId, 0);
        initial := parsed.value;
      } else {
        initial := EmptyConditions(defaultConditionsCount, newId, 0);
      }
      conditions := initial;
      issued := |initial|;
      sortField := InitialSortField(initialFilters);
      sortOrder := InitialSortOrder(initialFilters);
      archive := InitialArchive(initialFilters);
      error := "";
    }

    /** `addCondition`: an empty row with the next id is appended. */
    method AddCondition()
      modifies this
      ensures conditions == old(conditions) + [EmptyCondition(newId(old(issued)))]
      ensures issued == old(issued) + 1
      ensures sortField == old(sortField) && sortOrder == old(sortOrder)
      ensures archive == old(archive) && error == old(error)
    {
      conditions := conditions + [EmptyCondition(newId(issued))];
      issued := issued + 1;
    }

    /** `removeCondition`: every row carrying `id` is dropped. */
    method RemoveCondition(id: string)
      modifies this
      ensures conditions == RemoveById(old(conditions), id)
      ensures issued == old(issued) && sortField == old(sortField) && sortOrder == old(sortOrder)
      ensures archive == old(archive) && error == old(error)
    {
      conditions := RemoveById(conditions, id);
    }

    /** `updateCondition`: every row carrying `id` gets the update. */
    method UpdateCondition(id: string, update: ConditionUpdate)
      modifies this
      ensures conditions == UpdateById(attributeOptions, old(conditions), id, update)
      ensures issued == old(issued) && sortField == old(sortField) && sortOrder == old(sortOrder)
      ensures archive == old(archive) && error == old(error)
    {
      conditions := UpdateById(attributeOptions, conditions, id, update);
    }

    /** `resetFilters`: fresh empty rows, no sort, not archived, no error. */
    method ResetFilters()
      modifies this
      ensures conditions == EmptyConditions(defaultConditionsCount, newId, old(issued))
      ensures issued == old(issued) + defaultConditionsCount
      ensures sortField == "" && sortOrder == "" && !archive && error == ""
      ensures Validate(conditions, sortField, sortOrder, archive) == Invalid(NothingToApply)
    {
      conditions := EmptyConditions(defaultConditionsCount, newId, issued);
      issued := issued + defaultConditionsCount;
      sortField := "";
      sortOrder := "";
      archive := false;
      error := "";
      ResetIsInvalid(defaultConditionsCount, newId, old(issued), false);
    }

    /** `setConditions` */
    method SetConditions(cs: seq<Condition>)
      modifies this
      ensures conditions == cs && issued == old(issued)
      ensures sortField == old(sortField) && sortOrder == old(sortOrder)
      ensures archive == old(archive) && error == old(error)
    {
      conditions := cs;
    }

    /** `setSortField` */
    method SetSortField(field: string)
      modifies this
      ensures sortField == field && conditions == old(conditions) && issued == old(issued)
      ensures sortOrder == old(sortOrder) && archive == old(archive) && error == old(error)
    {
      sortField := field;
    }

    /** `setSortOrder` */
    method SetSortOrder(order: string)
      modifies this
      ensures sortOrder == order && conditions == old(conditions) && issued == old(issued)
      ensures sortField == old(sortField) && archive == old(archive) && error == old(error)
    {
      sortOrder := order;
    }

    /** `setArchive` */
    method SetArchive(deleted: bool)
      modifies this
      ensures archive == deleted && conditions == old(conditions) && issued == old(issued)
      ensures sortField == old(sortField) && sortOrder == old(sortOrder) && error == old(error)
    {
      archive := deleted;
    }

    /** `setError` */
    method SetError(message: string)
      modifies this
      ensures error == message && conditions == old(conditions) && issued == old(issued)
      ensures sortField == old(sortField) && sortOrder == old(sortOrder) && archive == old(archive)
    {
      error := message;
    }

    /** `validateAndBuildParams`, on the current rows and sort. */
    method ValidateAndBuildParams() returns (r: Validation)
      ensures r == Validate(conditions, sortField, sortOrder, archive)
    {
      r := Validate(conditions, sortField, sortOrder, archive);
    }

    /** `getOperatorsForAttribute`, on this widget's attribute options. */
    method OperatorsFor(attribute: string) returns (r: seq<OperatorOption>)
      ensures r == GetOperatorsForAttribute(attributeOptions, attribute)
    {
      r := GetOperatorsForAttribute(attributeOptions, attribute);
    }
  }

  /** The ids of the parsed initial rows are the first fresh ids, in order. */
  lemma ParseSpecIds(customFilter: Value, newId: nat -> string, next: nat)
    requires ParseSpec(customFilter, newId, next).Normal?
    ensures forall k :: 0 <= k < |ParseSpec(customFilter, newId, next).value| ==>
      ParseSpec(customFilter, newId, next).value[k].id == newId(next + k)
  {
    if Truthy(customFilter) && IsObjectType(customFilter) {
      ParseIds(OwnEntries(customFilter), newId, next);
    }
  }
}
