/** Validating a module's configuration against its declarations. */
module ConfigValidation {
  import opened Common

  /** A dynamically typed value as the validators meet it. */
  datatype Any =
    | Nil
    | Int(i: int)
    | Float(r: real)
    | Bool(b: bool)
    | String(s: string)
    | Strings(list: seq<string>)
    | Slice(items: seq<Any>)
    | Object(fields: map<string, Any>)

  /** What decoding JSON text can produce: numbers are floats and arrays are slices of anything. */
  predicate FromJson(v: Any) {
    !v.Int? && !v.Strings?
  }

  datatype IntegerSpec = IntegerSpec(required: bool, default: int, min: Option<int>, max: Option<int>, editable: bool)
  datatype BooleanSpec = BooleanSpec(required: bool, default: bool, editable: bool)
  datatype StringSpec = StringSpec(required: bool, default: string, regex: Option<string>, editable: bool)
  datatype OptionSpec = OptionSpec(required: bool, default: string, values: seq<string>, editable: bool)
  datatype MultipleSpec = MultipleSpec(
    required: bool, default: seq<string>, values: seq<string>, min: Option<int>, max: Option<int>, editable: bool)

  /** A declaration; the first kind that is set counts. */
  datatype Item = Item(
    alias: string, integer: Option<IntegerSpec>, boolean: Option<BooleanSpec>, text: Option<StringSpec>,
    choice: Option<OptionSpec>, choices: Option<MultipleSpec>)

  /** Compiling a pattern may fail; a compiled pattern accepts or rejects a text. */
  type Regex = string -> Option<string -> bool>

  /** Conversion to an integer drops the fraction. */
  function Truncated(r: real): int {
    if r >= 0.0 then r.Floor else -((-r).Floor)
  }

  function ValidateInteger(spec: IntegerSpec, input: Option<Any>): Result<int> {
    if input.None? then (if spec.required then Failure else Success(spec.default))
    else if !spec.editable then Failure
    else if !input.value.Int? && !input.value.Float? then Failure
    else
      var val := if input.value.Int? then input.value.i else Truncated(input.value.r);
      if spec.min.Some? && val < spec.min.value then Failure
      else if spec.max.Some? && val > spec.max.value then Failure
      else Success(val)
  }

  function ValidateBoolean(spec: BooleanSpec, input: Option<Any>): Result<bool> {
    if input.None? then (if spec.required then Failure else Success(spec.default))
    else if !spec.editable || !input.value.Bool? then Failure
    else Success(input.value.b)
  }

  function ValidateString(re: Regex, spec: StringSpec, input: Option<Any>): Result<string> {
    if input.None? then (if spec.required then Failure else Success(spec.default))
    else if !spec.editable || !input.value.String? then Failure
    else if spec.regex.None? then Success(input.value.s)
    else match re(spec.regex.value)
      case None => Failure
      case Some(matches) => if matches(input.value.s) then Success(input.value.s) else Failure
  }

  function ValidateOption(spec: OptionSpec, input: Option<Any>): Result<string> {
    if input.None? then (if spec.required then Failure else Success(spec.default))
    else if !spec.editable || !input.value.String? then Failure
    else if input.value.s !in spec.values then Failure
    else Success(input.value.s)
  }

  function ValidateMultiple(spec: MultipleSpec, input: Option<Any>): Result<seq<string>> {
    if input.None? then (if spec.required then Failure else Success(spec.default))
    else if !spec.editable || !input.value.Strings? then Failure
    else if input.value.list == [] && spec.required then Failure
    else if exists s | s in input.value.list :: s !in spec.values then Failure
    else Success(input.value.list)
  }

  function Lift<T>(r: Result<T>, inject: T -> Any): Result<Any> {
    if r.Success? then Success(inject(r.value)) else Failure
  }

  function Validate(re: Regex, item: Item, input: Option<Any>): Result<Any> {
    if item.integer.Some? then Lift(ValidateInteger(item.integer.value, input), (x: int) => Int(x))
    else if item.boolean.Some? then Lift(ValidateBoolean(item.boolean.value, input), (x: bool) => Bool(x))
    else if item.text.Some? then Lift(ValidateString(re, item.text.value, input), (x: string) => String(x))
    else if item.choice.Some? then Lift(ValidateOption(item.choice.value, input), (x: string) => String(x))
    else if item.choices.Some? then Lift(ValidateMultiple(item.choices.value, input), (x: seq<string>) => Strings(x))
    else Failure
  }

  // ---------------------------------------------------------------- what a valid value is

  /** Required, editable and default of the kind that counts. */
  datatype Rule = Rule(required: bool, editable: bool, default: Any)

  function RuleOf(item: Item): Option<Rule> {
    match item
    case Item(_, Some(s), _, _, _, _) => Some(Rule(s.required, s.editable, Int(s.default)))
    case Item(_, _, Some(s), _, _, _) => Some(Rule(s.required, s.editable, Bool(s.default)))
    case Item(_, _, _, Some(s), _, _) => Some(Rule(s.required, s.editable, String(s.default)))
    case Item(_, _, _, _, Some(s), _) => Some(Rule(s.required, s.editable, String(s.default)))
    case Item(_, _, _, _, _, Some(s)) => Some(Rule(s.required, s.editable, Strings(s.default)))
    case _ => None
  }

  predicate Within(n: int, min: Option<int>, max: Option<int>) {
    (min.Some? ==> min.value <= n) && (max.Some? ==> n <= max.value)
  }

  /** `n` is `x` with its fraction dropped. */
  predicate TowardZero(x: real, n: int) {
    (x >= 0.0 ==> n as real <= x < n as real + 1.0) && (x <= 0.0 ==> n as real - 1.0 < x <= n as real)
  }

  /** A given value that meets its declaration, and what it is taken as. */
  predicate Meets(re: Regex, item: Item, given: Any, taken: Any) {
    match item
    case Item(_, Some(s), _, _, _, _) =>
      && taken.Int? && Within(taken.i, s.min, s.max)
      && (given == taken || (given.Float? && TowardZero(given.r, taken.i)))
    case Item(_, _, Some(s), _, _, _) => given.Bool? && taken == given
    case Item(_, _, _, Some(s), _, _) =>
      given.String? && taken == given
      && (s.regex.Some? ==> re(s.regex.value).Some? && re(s.regex.value).value(given.s))
    case Item(_, _, _, _, Some(s), _) => given.String? && taken == given && given.s in s.values
    case Item(_, _, _, _, _, Some(s)) =>
      given.Strings? && taken == given && (s.required ==> given.list != [])
      && forall t | t in given.list :: t in s.values
    case _ => false
  }

  /** The value a declaration gives to an input, as a relation. */
  predicate Accepts(re: Regex, item: Item, input: Option<Any>, out: Any) {
    var c := RuleOf(item);
    c.Some?
    && if input.None? then !c.value.required && out == c.value.default
       else c.value.editable && Meets(re, item, input.value, out)
  }

  lemma TruncatedIs(x: real, n: int)
    ensures TowardZero(x, n) <==> n == Truncated(x)
  {
  }

  /** The validators accept exactly the inputs that meet their declarations. */
  lemma ValidIff(re: Regex, item: Item, input: Option<Any>, out: Any)
    ensures Validate(re, item, input) == Success(out) <==> Accepts(re, item, input, out)
  {
    if input.Some? && input.value.Float? && out.Int? {
      TruncatedIs(input.value.r, out.i);
    }
  }

  /** Every JSON input to a multiple choice is rejected: decoded arrays are never string slices. */
  lemma JsonChoicesRejected(re: Regex, item: Item, given: Any, out: Any)
    requires item.integer.None? && item.boolean.None? && item.text.None? && item.choice.None?
    requires FromJson(given)
    ensures !Accepts(re, item, Some(given), out)
    ensures Validate(re, item, Some(given)).Failure?
  {
  }

  /** The bounds of a multiple choice are never looked at. */
  lemma ChoiceBoundsIgnored(spec: MultipleSpec, input: Option<Any>, min: Option<int>, max: Option<int>)
    ensures ValidateMultiple(spec.(min := min, max := max), input) == ValidateMultiple(spec, input)
  {
  }

  // ---------------------------------------------------------------- whole configurations

  /** The module's raw configuration: not given, not decodable, or a JSON object. */
  datatype RawConfig = NotGiven | Malformed | Given(values: map<string, Any>)

  function InputFor(raw: RawConfig, alias: string): Option<Any> {
    if raw.Given? && alias in raw.values then Some(raw.values[alias]) else None
  }

  ghost function Aliases(items: seq<Item>): set<string> {
    set i | 0 <= i < |items| :: items[i].alias
  }

  /** The last declaration of an alias. */
  ghost predicate LastOf(items: seq<Item>, i: int) {
    0 <= i < |items| && forall j | i < j < |items| :: items[j].alias != items[i].alias
  }

  /** `out` is what the declarations make of the input: exactly the declared aliases, each with the
      value its (last) declaration gives it. */
  ghost predicate IsConfig(re: Regex, items: seq<Item>, raw: RawConfig, out: map<string, Any>) {
    && out.Keys == Aliases(items)
    && (forall i | 0 <= i < |items| :: Validate(re, items[i], InputFor(raw, items[i].alias)).Success?)
    && (forall i | LastOf(items, i) :: Accepts(re, items[i], InputFor(raw, items[i].alias), out[items[i].alias]))
  }

  method GetValidatedConfig(re: Regex, items: seq<Item>, raw: RawConfig) returns (r: Result<map<string, Any>>)
    ensures r.Success? ==> !raw.Malformed? && IsConfig(re, items, raw, r.value)
    ensures r.Success? ==> forall i | LastOf(items, i) ::
              && items[i].alias in r.value
              && Accepts(re, items[i],
                         if raw.Given? && items[i].alias in raw.values then Some(raw.values[items[i].alias]) else None,
                         r.value[items[i].alias])
    ensures r.Failure? ==>
              || raw.Malformed?
              || exists i | 0 <= i < |items| :: Validate(re, items[i], InputFor(raw, items[i].alias)).Failure?
  {
    if raw.Malformed? {
      return Failure;
    }
    var output: map<string, Any> := map[];
    for n := 0 to |items|
      invariant IsConfig(re, items[..n], raw, output)
    {
      var item := items[n];
      var val := Validate(re, item, InputFor(raw, item.alias));
      if val.Failure? {
        return Failure;
      }
      ConfigStep(re, items[..n], item, raw, output, val.value);
      assert items[..n + 1] == items[..n] + [item];
      output := output[item.alias := val.value];
    }
    assert items[..|items|] == items;
    forall i | LastOf(items, i)
      ensures items[i].alias in output
    {
      DeclaredAlias(items, i);
    }
    r := Success(output);
  }

  lemma AliasesStep(before: seq<Item>, item: Item)
    ensures Aliases(before + [item]) == Aliases(before) + {item.alias}
  {
    var after := before + [item];
    forall i | 0 <= i < |before|
      ensures before[i].alias in Aliases(after)
    {
      assert after[i] == before[i];
    }
    assert after[|before|].alias in Aliases(after);
  }

  lemma ConfigStep(re: Regex, before: seq<Item>, item: Item, raw: RawConfig, out: map<string, Any>, v: Any)
    requires IsConfig(re, before, raw, out)
    requires Validate(re, item, InputFor(raw, item.alias)) == Success(v)
    ensures IsConfig(re, before + [item], raw, out[item.alias := v])
  {
    hide Validate, Accepts, Aliases, InputFor;
    var after, out' := before + [item], out[item.alias := v];
    AliasesStep(before, item);
    assert out'.Keys == Aliases(after);
    ValidIff(re, item, InputFor(raw, item.alias), v);
    forall i | LastOf(after, i)
      ensures after[i].alias in out' && Accepts(re, after[i], InputFor(raw, after[i].alias), out'[after[i].alias])
    {
      DeclaredAlias(after, i);
      if i < |before| {
        LastStep(before, item, i);
      }
    }
  }

  lemma LastStep(before: seq<Item>, item: Item, i: int)
    requires LastOf(before + [item], i) && i < |before|
    ensures LastOf(before, i) && before[i].alias != item.alias
  {
    assert (before + [item])[|before|] == item;
    assert forall j | 0 <= j < |before| :: (before + [item])[j] == before[j];
  }

  lemma DeclaredAlias(items: seq<Item>, i: int)
    requires 0 <= i < |items|
    ensures items[i].alias in Aliases(items)
  {
  }

  ghost predicate DistinctAliases(items: seq<Item>) {
    forall i, j | 0 <= i < j < |items| :: items[i].alias != items[j].alias
  }

  /** Every declared alias has a last declaration. */
  lemma LastDeclaration(items: seq<Item>, k: string, n: nat) returns (i: int)
    requires n < |items| && items[n].alias == k
    ensures LastOf(items, i) && items[i].alias == k
    decreases |items| - n
  {
    if j :| n < j < |items| && items[j].alias == k {
      i := LastDeclaration(items, k, j);
    } else {
      i := n;
    }
  }

  /** The declarations and the input determine the outcome. */
  lemma ConfigUnique(re: Regex, items: seq<Item>, raw: RawConfig, out: map<string, Any>, out': map<string, Any>)
    requires IsConfig(re, items, raw, out) && IsConfig(re, items, raw, out')
    ensures out == out'
  {
    hide Validate, Accepts, InputFor;
    forall k | k in out
      ensures out[k] == out'[k]
    {
      var n :| 0 <= n < |items| && items[n].alias == k;
      var i := LastDeclaration(items, k, n);
      ValidIff(re, items[i], InputFor(raw, k), out[k]);
      ValidIff(re, items[i], InputFor(raw, k), out'[k]);
    }
  }

  /** With distinct aliases neither success nor the outcome depends on the order of the declarations. */
  lemma OrderIrrelevant(re: Regex, items: seq<Item>, items': seq<Item>, raw: RawConfig, out: map<string, Any>)
    requires DistinctAliases(items) && DistinctAliases(items')
    requires forall x :: x in items <==> x in items'
    ensures IsConfig(re, items, raw, out) <==> IsConfig(re, items', raw, out)
  {
    if IsConfig(re, items, raw, out) {
      Reordered(re, items, items', raw, out);
    }
    if IsConfig(re, items', raw, out) {
      Reordered(re, items', items, raw, out);
    }
  }

  lemma Reordered(re: Regex, items: seq<Item>, items': seq<Item>, raw: RawConfig, out: map<string, Any>)
    requires DistinctAliases(items) && IsConfig(re, items, raw, out)
    requires forall x :: x in items <==> x in items'
    ensures IsConfig(re, items', raw, out)
  {
    hide Validate, Accepts, InputFor, Aliases;
    SameAliases(items, items');
    SameAliases(items', items);
    forall j | 0 <= j < |items'|
      ensures Validate(re, items'[j], InputFor(raw, items'[j].alias)).Success?
      ensures items'[j].alias in out && Accepts(re, items'[j], InputFor(raw, items'[j].alias), out[items'[j].alias])
    {
      assert items'[j] in items';
      var i :| 0 <= i < |items| && items[i] == items'[j];
      assert LastOf(items, i);
      DeclaredAlias(items, i);
    }
  }

  lemma SameAliases(items: seq<Item>, items': seq<Item>)
    requires forall x | x in items :: x in items'
    ensures Aliases(items) <= Aliases(items')
  {
    forall k | k in Aliases(items)
      ensures k in Aliases(items')
    {
      var i :| 0 <= i < |items| && items[i].alias == k;
      assert items[i] in items';
    }
  }
}
