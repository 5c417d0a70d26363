/** The validators that check a decoded client or product dictionary before it is turned into a
    value: each field check gives a list of messages, and the data checks collect them into a
    dictionary of field name to messages. Regular-expression matching is a parameter. */
module Validator {
  import opened Outcomes
  import opened Ranking
  import opened Model

  /** The messages the checks produce. A check on field `key` words its message with the title-cased
      key: "Name is not formatted correctly", "Age is not valid". */
  datatype ErrorMessage =
    | NotFormatted(key: string)        // "<Key> is not formatted correctly"
    | InvalidType(typeName: string)    // "Invalid expression type: <type>"
    | NotValid(key: string)            // "<Key> is not valid"
    | NotDefinedIn(enumName: string)   // "Category is not defined in <Enum>"

  /** The patterns read from the environment at start-up. */
  datatype Patterns = Patterns(
    clientName: string,
    clientSurname: string,
    clientBalance: string,
    productName: string,
    productCategory: string,
    productPrice: string)

  /** `matches(expression, pattern)`: whether the pattern matches at the start of the expression. */
  type Matcher = (string, string) -> bool

  // ---------------------------------------------------------------------------
  // BasicValidator
  // ---------------------------------------------------------------------------

  /** `validate_using_regex`: a string the pattern does not match gives one "not formatted" message;
      a value that is not a string gives the "invalid expression type" message that the
      matcher raises and the check catches. */
  function ValidateUsingRegex(keyName: string, expression: Raw, regex: string, matches: Matcher): (r: seq<ErrorMessage>)
    ensures |r| <= 1
    ensures r == [] <==> expression.RawStr? && matches(expression.s, regex)
    ensures !expression.RawStr? ==> r == [InvalidType(TypeName(expression))]
    ensures expression.RawStr? && !matches(expression.s, regex) ==> r == [NotFormatted(keyName)]
  {
    match expression
    case RawStr(s) => if matches(s, regex) then [] else [NotFormatted(keyName)]
    case _ => [InvalidType(TypeName(expression))]
  }

  /** `if max_range:` tests truthiness, so a maximum of 0 switches the upper check off as None does. */
  predicate UpperBoundActive(maxRange: Option<int>) {
    maxRange.Some? && maxRange.value != 0
  }

  /** A given maximum below the minimum is refused before the value is looked at. */
  predicate RangeRefused(minRange: int, maxRange: Option<int>) {
    maxRange.Some? && minRange > maxRange.value
  }

  /** The value lies in the range as the check reads it: an int, at least the minimum, and at most
      the maximum when the upper check is on. */
  predicate InRange(value: Raw, minRange: int, maxRange: Option<int>) {
    value.RawInt? && minRange <= value.i && (UpperBoundActive(maxRange) ==> value.i <= maxRange.value)
  }

  /** `validate_integer_value`. A non-int gives the type message; an int below the minimum gives
      one "not valid"; with the upper check on, a value above the maximum appends "not valid",
      and a value that cannot be compared with an int (a string, any other object) raises
      TypeError. A float or Decimal is compared by its numeric value. */
  function ValidateIntegerValue(keyName: string, value: Raw, minRange: int, maxRange: Option<int>): (r: Result<seq<ErrorMessage>>)
    ensures r == Err(ValueError) <==> RangeRefused(minRange, maxRange)
    ensures r == Err(TypeError) <==>
      !RangeRefused(minRange, maxRange) && UpperBoundActive(maxRange) && (value.RawStr? || value.RawOther?)
    ensures r == Ok([]) <==> !RangeRefused(minRange, maxRange) && InRange(value, minRange, maxRange)
    ensures !RangeRefused(minRange, maxRange) && value.RawInt? && value.i < minRange ==> r == Ok([NotValid(keyName)])
    ensures !RangeRefused(minRange, maxRange) && value.RawInt? && UpperBoundActive(maxRange) && value.i > maxRange.value
      ==> r == Ok([NotValid(keyName)])
    ensures r.Ok? && !value.RawInt? ==> |r.value| >= 1 && r.value[0] == InvalidType(TypeName(value))
    ensures r.Ok? ==> |r.value| <= 2 && forall i :: 0 <= i < |r.value| ==> r.value[i] in {InvalidType(TypeName(value)), NotValid(keyName)}
  {
    if maxRange.Some? && minRange > maxRange.value then Err(ValueError)
    else
      var lower :=
        if !value.RawInt? then [InvalidType(TypeName(value))]
        else if value.i < minRange then [NotValid(keyName)]
        else [];
      if maxRange.Some? && maxRange.value != 0 then
        match value
        case RawInt(i) =>
          if i > maxRange.value then
            assert lower == [] && lower + [NotValid(keyName)] == [NotValid(keyName)];
            Ok(lower + [NotValid(keyName)])
          else Ok(lower)
        case RawNum(x, _) => if x > maxRange.value as real then Ok(lower + [NotValid(keyName)]) else Ok(lower)
        case _ => Err(TypeError)
      else Ok(lower)
  }

  /** A maximum of 0 is the same as no maximum, whenever it does not make the range refused. */
  lemma ZeroMaximumIsNoMaximum(keyName: string, value: Raw, minRange: int)
    requires minRange <= 0
    ensures ValidateIntegerValue(keyName, value, minRange, Some(0)) == ValidateIntegerValue(keyName, value, minRange, None)
  {
  }

  /** Without an upper check nothing is raised, however large the value. */
  lemma NoMaximumNeverRaises(keyName: string, value: Raw, minRange: int)
    ensures ValidateIntegerValue(keyName, value, minRange, None).Ok?
    ensures value.RawInt? && value.i >= minRange ==> ValidateIntegerValue(keyName, value, minRange, None) == Ok([])
  {
  }

  /** `validate_name_existence`: no message when the name is one of the enumeration's member names,
      one message otherwise; a name that is not a string raises TypeError. */
  function ValidateNameExistence(name: Raw, memberNames: seq<string>, enumName: string): (r: Result<seq<ErrorMessage>>)
    ensures r.Err? <==> !name.RawStr?
    ensures r.Err? ==> r.error == TypeError
    ensures r == Ok([]) <==> name.RawStr? && name.s in memberNames
    ensures r.Ok? && r.value != [] ==> r.value == [NotDefinedIn(enumName)]
  {
    match name
    case RawStr(s) => if s in memberNames then Ok([]) else Ok([NotDefinedIn(enumName)])
    case _ => Err(TypeError)
  }

  /** Checking a category name against `Category`: accepted exactly for member names. */
  lemma CategoryExistence(c: Category, other: string)
    requires forall d: Category :: CategoryName(d) != other
    ensures ValidateNameExistence(RawStr(CategoryName(c)), CategoryNames(), "Category") == Ok([])
    ensures ValidateNameExistence(RawStr(other), CategoryNames(), "Category") == Ok([NotDefinedIn("Category")])
  {
  }

  // ---------------------------------------------------------------------------
  // ClientValidator
  // ---------------------------------------------------------------------------

  /** `ClientValidator.AGE_RANGE_MIN`; the age has no upper bound. */
  const AgeRangeMin: int := 18

  /** `ClientValidator._validate_name` */
  function ValidateClientName(patterns: Patterns, matches: Matcher, name: Raw): (r: seq<ErrorMessage>)
    ensures r == [] <==> name.RawStr? && matches(name.s, patterns.clientName)
    ensures r != [] ==> r == [NotFormatted("name")] || r == [InvalidType(TypeName(name))]
  {
    ValidateUsingRegex("name", name, patterns.clientName, matches)
  }

  /** `ClientValidator._validate_surname`, which the data check does not call. */
  function ValidateClientSurname(patterns: Patterns, matches: Matcher, surname: Raw): (r: seq<ErrorMessage>)
    ensures r == [] <==> surname.RawStr? && matches(surname.s, patterns.clientSurname)
    ensures r != [] ==> r == [NotFormatted("surname")] || r == [InvalidType(TypeName(surname))]
  {
    ValidateUsingRegex("surname", surname, patterns.clientSurname, matches)
  }

  /** `ClientValidator._validate_age`: at least 18, no maximum, never raises. */
  function ValidateAge(age: Raw): (r: seq<ErrorMessage>)
    ensures r == [] <==> age.RawInt? && age.i >= 18
    ensures age.RawInt? && age.i < 18 ==> r == [NotValid("age")]
    ensures !age.RawInt? ==> r == [InvalidType(TypeName(age))]
  {
    NoMaximumNeverRaises("age", age, AgeRangeMin);
    ValidateIntegerValue("age", age, AgeRangeMin, None).value
  }

  /** `ClientValidator._validate_balance` */
  function ValidateBalance(patterns: Patterns, matches: Matcher, balance: Raw): (r: seq<ErrorMessage>)
    ensures r == [] <==> balance.RawStr? && matches(balance.s, patterns.clientBalance)
    ensures r != [] ==> r == [NotFormatted("balance")] || r == [InvalidType(TypeName(balance))]
  {
    ValidateUsingRegex("balance", balance, patterns.clientBalance, matches)
  }

  /** The messages of the check `validate_client_data` runs on field `key`. The surname is checked
      by the name check, with the name pattern and the key "name" in its message. */
  function ClientFieldErrors(patterns: Patterns, matches: Matcher, data: map<string, Raw>, key: string): seq<ErrorMessage>
    requires key in ClientKeys() && key in data
  {
    if key == "name" then ValidateClientName(patterns, matches, data["name"])
    else if key == "surname" then ValidateClientName(patterns, matches, data["surname"])
    else if key == "age" then ValidateAge(data["age"])
    else ValidateBalance(patterns, matches, data["balance"])
  }

  /** The dictionary `validate_client_data` returns: a KeyError when one of the four fields is
      missing, otherwise an entry for exactly the fields whose check gave messages. */
  function ClientDataErrors(patterns: Patterns, matches: Matcher, data: map<string, Raw>): (r: Result<map<string, seq<ErrorMessage>>>)
    ensures r.Err? <==> !(ClientKeys() <= data.Keys)
    ensures r.Err? ==> r.error == KeyError
  {
    if !(ClientKeys() <= data.Keys) then Err(KeyError)
    else Ok(map k | k in ClientKeys() && ClientFieldErrors(patterns, matches, data, k) != [] :: ClientFieldErrors(patterns, matches, data, k))
  }

  /** With every field present, the dictionary has a key exactly for each field whose check gave
      messages, mapped to those messages. */
  lemma ClientDataErrorsEntries(patterns: Patterns, matches: Matcher, data: map<string, Raw>)
    requires ClientKeys() <= data.Keys
    ensures ClientDataErrors(patterns, matches, data).value.Keys <= ClientKeys()
    ensures forall k :: k in ClientKeys() ==>
      (k in ClientDataErrors(patterns, matches, data).value <==> ClientFieldErrors(patterns, matches, data, k) != [])
    ensures forall k :: k in ClientDataErrors(patterns, matches, data).value ==>
      ClientDataErrors(patterns, matches, data).value[k] == ClientFieldErrors(patterns, matches, data, k)
  {
  }

  /** `validate_client_data`'s statement sequence: look each field up, run its check, record non-empty results. */
  method ValidateClientData(patterns: Patterns, matches: Matcher, data: map<string, Raw>) returns (r: Result<map<string, seq<ErrorMessage>>>)
    ensures r == ClientDataErrors(patterns, matches, data)
  {
    var errors: map<string, seq<ErrorMessage>> := map[];
    if "name" !in data {
      return Err(KeyError);
    }
    var nameErr := ValidateClientName(patterns, matches, data["name"]);
    if nameErr != [] {
      errors := errors["name" := nameErr];
    }
    if "surname" !in data {
      return Err(KeyError);
    }
    var surnameErr := ValidateClientName(patterns, matches, data["surname"]);
    if surnameErr != [] {
      errors := errors["surname" := surnameErr];
    }
    if "age" !in data {
      return Err(KeyError);
    }
    var ageErr := ValidateAge(data["age"]);
    if ageErr != [] {
      errors := errors["age" := ageErr];
    }
    if "balance" !in data {
      return Err(KeyError);
    }
    var balanceErr := ValidateBalance(patterns, matches, data["balance"]);
    if balanceErr != [] {
      errors := errors["balance" := balanceErr];
    }
    ClientDataErrorsAre(patterns, matches, data, errors);
    return Ok(errors);
  }

  /** A dictionary with the key set and values of the specification is the specification's. */
  lemma ClientDataErrorsAre(patterns: Patterns, matches: Matcher, data: map<string, Raw>, errors: map<string, seq<ErrorMessage>>)
    requires ClientKeys() <= data.Keys
    requires errors.Keys <= ClientKeys()
    requires forall k :: k in ClientKeys() ==> (k in errors <==> ClientFieldErrors(patterns, matches, data, k) != [])
    requires forall k :: k in errors ==> errors[k] == ClientFieldErrors(patterns, matches, data, k)
    ensures ClientDataErrors(patterns, matches, data) == Ok(errors)
  {
    ClientDataErrorsEntries(patterns, matches, data);
    var spec := ClientDataErrors(patterns, matches, data).value;
    assert spec.Keys == errors.Keys;
    assert forall k :: k in spec ==> spec[k] == errors[k];
    assert spec == errors;
  }

  /** The surname goes through the name check, not `_validate_surname`: its messages are the name
      check's, worded with the key "name". */
  lemma SurnameCheckedAsName(patterns: Patterns, matches: Matcher, data: map<string, Raw>)
    requires ClientKeys() <= data.Keys
    ensures ClientFieldErrors(patterns, matches, data, "surname") == ValidateUsingRegex("name", data["surname"], patterns.clientName, matches)
    ensures data["surname"].RawStr? && !matches(data["surname"].s, patterns.clientName)
      ==> ClientDataErrors(patterns, matches, data).value["surname"] == [NotFormatted("name")]
  {
  }

  /** An empty error dictionary means the fields have the types `Client.from_dict` assumes. */
  lemma ValidClientDataIsTyped(patterns: Patterns, matches: Matcher, data: map<string, Raw>)
    requires ClientDataErrors(patterns, matches, data) == Ok(map[])
    ensures ClientDataTyped(data)
    ensures data["age"].RawInt? && data["age"].i >= AgeRangeMin
  {
    ClientDataErrorsEntries(patterns, matches, data);
    assert ClientFieldErrors(patterns, matches, data, "name") == [];
    assert ClientFieldErrors(patterns, matches, data, "surname") == [];
    assert ClientFieldErrors(patterns, matches, data, "age") == [];
    assert ClientFieldErrors(patterns, matches, data, "balance") == [];
  }

  // ---------------------------------------------------------------------------
  // ProductValidator
  // ---------------------------------------------------------------------------

  /** `ProductValidator._validate_name` */
  function ValidateProductName(patterns: Patterns, matches: Matcher, name: Raw): (r: seq<ErrorMessage>)
    ensures r == [] <==> name.RawStr? && matches(name.s, patterns.productName)
    ensures r != [] ==> r == [NotFormatted("name")] || r == [InvalidType(TypeName(name))]
  {
    ValidateUsingRegex("name", name, patterns.productName, matches)
  }

  /** `ProductValidator._validate_category`: the pattern's messages alone when the pattern fails,
      otherwise whether the string names a `Category` member. */
  function ValidateCategory(patterns: Patterns, matches: Matcher, category: Raw): (r: seq<ErrorMessage>)
    ensures ValidateUsingRegex("category", category, patterns.productCategory, matches) != []
      ==> r == ValidateUsingRegex("category", category, patterns.productCategory, matches)
    ensures r == [] <==> category.RawStr? && matches(category.s, patterns.productCategory) && category.s in CategoryNames()
    ensures category.RawStr? && matches(category.s, patterns.productCategory) && category.s !in CategoryNames()
      ==> r == [NotDefinedIn("Category")]
  {
    var errors := ValidateUsingRegex("category", category, patterns.productCategory, matches);
    if errors != [] then errors
    else ValidateNameExistence(category, CategoryNames(), "Category").value
  }

  /** `ProductValidator._validate_price` */
  function ValidatePrice(patterns: Patterns, matches: Matcher, price: Raw): (r: seq<ErrorMessage>)
    ensures r == [] <==> price.RawStr? && matches(price.s, patterns.productPrice)
    ensures r != [] ==> r == [NotFormatted("price")] || r == [InvalidType(TypeName(price))]
  {
    var errors := ValidateUsingRegex("price", price, patterns.productPrice, matches);
    if errors != [] then errors else []
  }

  /** The messages of the check `validate_product_data` runs on field `key`. */
  function ProductFieldErrors(patterns: Patterns, matches: Matcher, data: map<string, Raw>, key: string): seq<ErrorMessage>
    requires key in ProductKeys() && key in data
  {
    if key == "name" then ValidateProductName(patterns, matches, data["name"])
    else if key == "category" then ValidateCategory(patterns, matches, data["category"])
    else ValidatePrice(patterns, matches, data["price"])
  }

  /** The dictionary `validate_product_data` returns: a KeyError when one of the three fields is
      missing, otherwise an entry for exactly the fields whose check gave messages. */
  function ProductDataErrors(patterns: Patterns, matches: Matcher, data: map<string, Raw>): (r: Result<map<string, seq<ErrorMessage>>>)
    ensures r.Err? <==> !(ProductKeys() <= data.Keys)
    ensures r.Err? ==> r.error == KeyError
  {
    if !(ProductKeys() <= data.Keys) then Err(KeyError)
    else Ok(map k | k in ProductKeys() && ProductFieldErrors(patterns, matches, data, k) != [] :: ProductFieldErrors(patterns, matches, data, k))
  }

  /** With every field present, the dictionary has a key exactly for each field whose check gave
      messages, mapped to those messages. */
  lemma ProductDataErrorsEntries(patterns: Patterns, matches: Matcher, data: map<string, Raw>)
    requires ProductKeys() <= data.Keys
    ensures ProductDataErrors(patterns, matches, data).value.Keys <= ProductKeys()
    ensures forall k :: k in ProductKeys() ==>
      (k in ProductDataErrors(patterns, matches, data).value <==> ProductFieldErrors(patterns, matches, data, k) != [])
    ensures forall k :: k in ProductDataErrors(patterns, matches, data).value ==>
      ProductDataErrors(patterns, matches, data).value[k] == ProductFieldErrors(patterns, matches, data, k)
  {
  }

  /** `validate_product_data`'s statement sequence. */
  method ValidateProductData(patterns: Patterns, matches: Matcher, data: map<string, Raw>) returns (r: Result<map<string, seq<ErrorMessage>>>)
    ensures r == ProductDataErrors(patterns, matches, data)
  {
    var errors: map<string, seq<ErrorMessage>> := map[];
    if "name" !in data {
      return Err(KeyError);
    }
    var nameErr := ValidateProductName(patterns, matches, data["name"]);
    if nameErr != [] {
      errors := errors["name" := nameErr];
    }
    if "category" !in data {
      return Err(KeyError);
    }
    var categoryErr := ValidateCategory(patterns, matches, data["category"]);
    if categoryErr != [] {
      errors := errors["category" := categoryErr];
    }
    if "price" !in data {
      return Err(KeyError);
    }
    var priceErr := ValidatePrice(patterns, matches, data["price"]);
    if priceErr != [] {
      errors := errors["price" := priceErr];
    }
    ProductDataErrorsAre(patterns, matches, data, errors);
    return Ok(errors);
  }

  lemma ProductDataErrorsAre(patterns: Patterns, matches: Matcher, data: map<string, Raw>, errors: map<string, seq<ErrorMessage>>)
    requires ProductKeys() <= data.Keys
    requires errors.Keys <= ProductKeys()
    requires forall k :: k in ProductKeys() ==> (k in errors <==> ProductFieldErrors(patterns, matches, data, k) != [])
    requires forall k :: k in errors ==> errors[k] == ProductFieldErrors(patterns, matches, data, k)
    ensures ProductDataErrors(patterns, matches, data) == Ok(errors)
  {
    ProductDataErrorsEntries(patterns, matches, data);
    var spec := ProductDataErrors(patterns, matches, data).value;
    assert spec.Keys == errors.Keys;
    assert forall k :: k in spec ==> spec[k] == errors[k];
    assert spec == errors;
  }

  /** An empty error dictionary means the fields have the types `Product.from_dict` assumes and the
      category names a member, so the lookup `Category[...]` succeeds. */
  lemma ValidProductDataIsTyped(patterns: Patterns, matches: Matcher, data: map<string, Raw>)
    requires ProductDataErrors(patterns, matches, data) == Ok(map[])
    ensures ProductDataTyped(data)
    ensures data["category"].RawStr? && data["category"].s in CategoryNames()
  {
    ProductDataErrorsEntries(patterns, matches, data);
    assert ProductFieldErrors(patterns, matches, data, "name") == [];
    assert ProductFieldErrors(patterns, matches, data, "category") == [];
    assert ProductFieldErrors(patterns, matches, data, "price") == [];
  }
}
