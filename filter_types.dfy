/**
 * The shapes the filter widget works with: conditions, attribute options with
 * their option-source descriptors and dependencies, and the filter payload.
 */
module FilterTypes {
  import opened JsValues

  /** One row of the filter: attribute, operator and value, under an id. */
  datatype Condition = Condition(id: string, attribute: string, operator: string, value: Value)

  /** The four fields `updateCondition` can set, each with the new value. */
  datatype ConditionUpdate =
    | SetId(id: string)
    | SetAttribute(attribute: string)
    | SetOperator(operator: string)
    | SetValue(value: Value)

  /** The value type tag of an attribute option. */
  datatype AttributeType = Text | Number | Date | Select | DropDown

  /**
   * Where a descriptor field comes from: a literal, or a caller-supplied
   * function of the dependency values (which may throw).
   */
  datatype UrlSource = StaticUrl(url: string) | UrlFunction(build: Value -> Completion<string>)

  datatype PayloadSource =
    | StaticPayload(payload: Value)
    | PayloadFunction(build: Value -> Completion<Value>)

  type Transform = Value -> Completion<Value>

  /**
   * An option-source descriptor: a plain function, a declarative `fetch`,
   * a declarative axios call, a custom handler, or an object whose `type`
   * is none of the three.
   */
  datatype FetchOptionsConfig =
    | FunctionConfig(call: Value -> Completion<Value>)
    | FetchConfig(url: UrlSource, httpMethod: Option<string>, headers: Option<seq<Entry<string>>>,
                  body: PayloadSource, transformResponse: Option<Transform>)
    | AxiosConfig(url: UrlSource, httpMethod: Option<string>, params: PayloadSource, data: PayloadSource,
                  headers: Option<seq<Entry<string>>>, transformResponse: Option<Transform>)
    | CustomConfig(handler: Value -> Completion<Value>, transformResponse: Option<Transform>)
    | UnknownConfig

  /** A filterable field as the caller describes it; `value` is its key. */
  datatype AttributeOption = AttributeOption(
    displayLabel: string,
    value: string,
    attributeType: AttributeType,
    options: Option<seq<Value>>,
    fetchOptions: Option<FetchOptionsConfig>,
    dependsOn: Option<seq<string>>,
    clearOnDependencyChange: Option<bool>)

  datatype SortConfig = SortConfig(field: string, order: string)

  datatype SortFilter = SortFilter(sort: Option<SortConfig>)

  /** The payload handed to the caller on apply, and accepted as the initial filter. */
  datatype FilterParams = FilterParams(
    customFilter: Option<Value>,
    customSortFilter: Option<SortFilter>,
    page: Option<int>,
    forcePage: Option<int>,
    isDeleted: Option<bool>)

  /** An entry of an operator menu: what is shown and the operator token. */
  datatype OperatorOption = OperatorOption(displayLabel: string, value: string)

  /** `attributeOptions.find(opt => opt.value === key)` */
  function FindOption(options: seq<AttributeOption>, key: string): (r: Option<AttributeOption>)
    ensures r.None? <==> forall i :: 0 <= i < |options| ==> options[i].value != key
    ensures r.Some? ==> exists i :: 0 <= i < |options| && options[i] == r.value && r.value.value == key
                          && forall j :: 0 <= j < i ==> options[j].value != key
  {
    if options == [] then None
    else if options[0].value == key then Some(options[0])
    else
      var r := FindOption(options[1..], key);
      assert forall i :: 1 <= i < |options| ==> options[i] == options[1..][i - 1];
      r
  }
}
