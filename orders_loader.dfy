/** Loading the orders snapshot from decoded JSON: every entry is validated first, and only when
    all of them pass are the clients and products built and each client's products counted. */
module OrdersLoader {
  import opened Outcomes
  import opened Ranking
  import opened Model
  import opened Validator

  /** One element of the decoded list: the client dictionary and the list of product dictionaries. */
  datatype OrderData = OrderData(client: map<string, Raw>, clientOrders: seq<map<string, Raw>>)

  // ---------------------------------------------------------------------------
  // Validation phase
  // ---------------------------------------------------------------------------

  /** `[True for order in orders if validate_product_data(order)]` is non-empty: whether some product
      dictionary has messages. Every dictionary is checked, so a missing field anywhere raises
      KeyError. */
  function SomeProductInvalid(patterns: Patterns, matches: Matcher, orders: seq<map<string, Raw>>): (r: Result<bool>)
    ensures r.Err? ==> r.error == KeyError
  {
    if orders == [] then Ok(false)
    else
      var rest := orders[1..];
      match ProductDataErrors(patterns, matches, orders[0])
      case Err(e) => Err(e)
      case Ok(m) =>
        match SomeProductInvalid(patterns, matches, rest)
        case Err(e) => Err(e)
        case Ok(b) => Ok(m != map[] || b)
  }

  /** The check fails exactly when some product dictionary lacks a field; otherwise it answers
      whether some dictionary has messages. */
  lemma {:induction false} SomeProductInvalidMeaning(patterns: Patterns, matches: Matcher, orders: seq<map<string, Raw>>)
    ensures SomeProductInvalid(patterns, matches, orders).Err? <==>
      exists j :: 0 <= j < |orders| && ProductDataErrors(patterns, matches, orders[j]).Err?
    ensures SomeProductInvalid(patterns, matches, orders).Ok? ==>
      (SomeProductInvalid(patterns, matches, orders).value <==>
        exists j :: 0 <= j < |orders| && ProductDataErrors(patterns, matches, orders[j]) != Ok(map[]))
  {
    if orders != [] {
      var rest := orders[1..];
      assert forall j :: 1 <= j < |orders| ==> orders[j] == rest[j - 1];
      SomeProductInvalidMeaning(patterns, matches, rest);
    }
  }

  /** One turn of the validation loop: a KeyError from either check propagates; otherwise the answer
      is whether the client or some product has messages. */
  function EntryInvalid(patterns: Patterns, matches: Matcher, d: OrderData): (r: Result<bool>)
    ensures r.Err? ==> r.error == KeyError
  {
    match ClientDataErrors(patterns, matches, d.client)
    case Err(e) => Err(e)
    case Ok(m) =>
      match SomeProductInvalid(patterns, matches, d.clientOrders)
      case Err(e) => Err(e)
      case Ok(b) => Ok(m != map[] || b)
  }

  /** The fault the validation loop stops at, scanning the entries in order: the KeyError of the
      first entry with a missing field, or ValueError for the first entry with messages (the
      loop's TypeError, re-raised as ValueError). None when every entry passes. */
  function ValidationFault(patterns: Patterns, matches: Matcher, data: seq<OrderData>): (r: Option<Error>)
    ensures r.Some? ==> r.value == KeyError || r.value == ValueError
  {
    if data == [] then None
    else
      var rest := data[1..];
      match EntryInvalid(patterns, matches, data[0])
      case Err(e) => Some(e)
      case Ok(true) => Some(ValueError)
      case Ok(false) => ValidationFault(patterns, matches, rest)
  }

  /** The loop passes exactly when every entry passes. */
  lemma {:induction false} ValidationPasses(patterns: Patterns, matches: Matcher, data: seq<OrderData>)
    ensures ValidationFault(patterns, matches, data).None? <==>
      forall i :: 0 <= i < |data| ==> EntryInvalid(patterns, matches, data[i]) == Ok(false)
  {
    if data != [] {
      var rest := data[1..];
      assert forall i :: 1 <= i < |data| ==> data[i] == rest[i - 1];
      ValidationPasses(patterns, matches, rest);
    }
  }

  /** An entry that passes has the fields `from_dict` assumes, for its client and every product. */
  lemma ValidEntryIsTyped(patterns: Patterns, matches: Matcher, d: OrderData)
    requires EntryInvalid(patterns, matches, d) == Ok(false)
    ensures ClientDataTyped(d.client)
    ensures forall j :: 0 <= j < |d.clientOrders| ==> ProductDataTyped(d.clientOrders[j])
  {
    ValidClientDataIsTyped(patterns, matches, d.client);
    SomeProductInvalidMeaning(patterns, matches, d.clientOrders);
    forall j | 0 <= j < |d.clientOrders|
      ensures ProductDataTyped(d.clientOrders[j])
    {
      ValidProductDataIsTyped(patterns, matches, d.clientOrders[j]);
    }
  }

  // ---------------------------------------------------------------------------
  // Build phase
  // ---------------------------------------------------------------------------

  predicate ProductsTyped(ds: seq<map<string, Raw>>) {
    forall j :: 0 <= j < |ds| ==> ProductDataTyped(ds[j])
  }

  predicate EntriesTyped(data: seq<OrderData>) {
    forall i :: 0 <= i < |data| ==> ClientDataTyped(data[i].client) && ProductsTyped(data[i].clientOrders)
  }

  lemma ValidatedEntriesAreTyped(patterns: Patterns, matches: Matcher, data: seq<OrderData>)
    requires ValidationFault(patterns, matches, data).None?
    ensures EntriesTyped(data)
  {
    ValidationPasses(patterns, matches, data);
    forall i | 0 <= i < |data|
      ensures ClientDataTyped(data[i].client) && ProductsTyped(data[i].clientOrders)
    {
      ValidEntryIsTyped(patterns, matches, data[i]);
    }
  }

  /** `[Product.from_dict(d) for d in ds]`: the products in order, or the first fault. */
  function ProductsFromDicts(ds: seq<map<string, Raw>>, decimal: string -> real): (r: Result<seq<Product>>)
    requires ProductsTyped(ds)
    ensures r.Err? ==> r.error == ValueError || r.error == KeyError
  {
    if ds == [] then Ok([])
    else
      var rest := ds[1..];
      assert ProductsTyped(rest) by {
        assert forall j :: 1 <= j < |ds| ==> ds[j] == rest[j - 1];
      }
      match ProductFromDict(ds[0], decimal)
      case Err(e) => Err(e)
      case Ok(p) =>
        match ProductsFromDicts(rest, decimal)
        case Err(e) => Err(e)
        case Ok(ps) => Ok([p] + ps)
  }

  /** The products are built exactly when every dictionary builds, one product per dictionary,
      in order. */
  lemma {:induction false} ProductsFromDictsMeaning(ds: seq<map<string, Raw>>, decimal: string -> real)
    requires ProductsTyped(ds)
    ensures ProductsFromDicts(ds, decimal).Ok? <==> forall j :: 0 <= j < |ds| ==> ProductFromDict(ds[j], decimal).Ok?
    ensures ProductsFromDicts(ds, decimal).Ok? ==>
      |ProductsFromDicts(ds, decimal).value| == |ds| &&
      forall j :: 0 <= j < |ds| ==> ProductsFromDicts(ds, decimal).value[j] == ProductFromDict(ds[j], decimal).value
  {
    if ds != [] {
      var rest := ds[1..];
      assert forall j :: 1 <= j < |ds| ==> ds[j] == rest[j - 1];
      ProductsFromDictsMeaning(rest, decimal);
      var h := ProductFromDict(ds[0], decimal);
      var t := ProductsFromDicts(rest, decimal);
      if h.Ok? && t.Ok? {
        var v := [h.value] + t.value;
        assert ProductsFromDicts(ds, decimal) == Ok(v);
        forall j | 0 <= j < |ds|
          ensures ProductFromDict(ds[j], decimal).Ok? && v[j] == ProductFromDict(ds[j], decimal).value
        {
          if j > 0 {
            assert v[j] == t.value[j - 1];
          }
        }
      } else if h.Ok? {
        var j :| 0 <= j < |rest| && !ProductFromDict(rest[j], decimal).Ok?;
        assert ds[j + 1] == rest[j];
      }
    }
  }

  /** `orders[client] = cart`: replaces the cart of an equal client where it stands, or appends. */
  function Put(orders: Orders, client: Client, cart: Cart): (r: Orders)
    ensures Firsts(r) == if client in Firsts(orders) then Firsts(orders) else Firsts(orders) + [client]
  {
    if orders == [] then
      var r := [(client, cart)];
      assert Firsts(r) == [client] == [] + [client];
      r
    else if orders[0].0 == client then
      var r := [(client, cart)] + orders[1..];
      assert r[1..] == orders[1..];
      assert Firsts(orders) == [orders[0].0] + Firsts(orders[1..]);
      assert Firsts(r) == [client] + Firsts(r[1..]);
      r
    else
      var rest := Put(orders[1..], client, cart);
      var r := [orders[0]] + rest;
      assert r[1..] == rest;
      assert Firsts(orders) == [orders[0].0] + Firsts(orders[1..]);
      assert Firsts(r) == [orders[0].0] + Firsts(rest);
      r
  }

  /** After the assignment the client's cart is the new one, and every other client's is unchanged. */
  lemma {:induction false} PutLookup(orders: Orders, client: Client, cart: Cart, d: Client)
    ensures Lookup(Put(orders, client, cart), d) == if d == client then Some(cart) else Lookup(orders, d)
  {
    if orders != [] && orders[0].0 != client {
      PutLookup(orders[1..], client, cart, d);
    }
  }

  /** Every entry afterwards is an old entry or the new one. */
  lemma {:induction false} PutEntries(orders: Orders, client: Client, cart: Cart, i: nat)
    requires i < |Put(orders, client, cart)|
    ensures Put(orders, client, cart)[i] in orders || Put(orders, client, cart)[i] == (client, cart)
  {
    if orders != [] && orders[0].0 != client && i > 0 {
      PutEntries(orders[1..], client, cart, i - 1);
    }
  }

  /** The snapshot the build loop produces: entries in order, a later equal client replacing the
      cart of the earlier one; each cart counts the entry's products. */
  function BuildOrders(data: seq<OrderData>, decimal: string -> real): (r: Result<Orders>)
    requires EntriesTyped(data)
    ensures r.Err? ==> r.error == ValueError || r.error == KeyError
  {
    if data == [] then Ok([])
    else
      var init := data[..|data| - 1];
      var last := data[|data| - 1];
      EntriesTypedSplit(data);
      match BuildOrders(init, decimal)
      case Err(e) => Err(e)
      case Ok(orders) =>
        match ClientFromDict(last.client, decimal)
        case Err(e) => Err(e)
        case Ok(client) =>
          match ProductsFromDicts(last.clientOrders, decimal)
          case Err(e) => Err(e)
          case Ok(products) => Ok(Put(orders, client, Counts(products)))
  }

  lemma EntriesTypedSplit(data: seq<OrderData>)
    requires EntriesTyped(data) && |data| > 0
    ensures EntriesTyped(data[..|data| - 1])
    ensures ClientDataTyped(data[|data| - 1].client)
    ensures ProductsTyped(data[|data| - 1].clientOrders)
  {
    var init := data[..|data| - 1];
    assert forall i :: 0 <= i < |init| ==> init[i] == data[i];
  }

  /** What `load_from` returns or raises. */
  function Load(patterns: Patterns, matches: Matcher, decimal: string -> real, data: seq<OrderData>): (r: Result<Orders>)
    ensures r.Err? ==> r.error == KeyError || r.error == ValueError
  {
    match ValidationFault(patterns, matches, data)
    case Some(e) => Err(e)
    case None =>
      ValidatedEntriesAreTyped(patterns, matches, data);
      BuildOrders(data, decimal)
  }

  // ---------------------------------------------------------------------------
  // load_from
  // ---------------------------------------------------------------------------

  /** `OrdersLoader.load_from`: the validation loop, then the build loop. */
  method LoadFrom(patterns: Patterns, matches: Matcher, decimal: string -> real, ordersData: seq<OrderData>)
    returns (r: Result<Orders>)
    ensures r == Load(patterns, matches, decimal, ordersData)
  {
    var fault := ValidateAll(patterns, matches, ordersData);
    if fault.Some? {
      return Err(fault.value);
    }
    ValidatedEntriesAreTyped(patterns, matches, ordersData);
    r := BuildAll(ordersData, decimal);
  }

  /** The validation loop: stops at the first entry with a missing field or with messages. */
  method ValidateAll(patterns: Patterns, matches: Matcher, ordersData: seq<OrderData>) returns (fault: Option<Error>)
    ensures fault == ValidationFault(patterns, matches, ordersData)
  {
    var i := 0;
    while i < |ordersData|
      invariant 0 <= i <= |ordersData|
      invariant ValidationFault(patterns, matches, ordersData) == ValidationFault(patterns, matches, ordersData[i..])
    {
      var data := ordersData[i];
      assert ordersData[i..][0] == data && ordersData[i..][1..] == ordersData[i + 1..];
      var err1 := ValidateClientData(patterns, matches, data.client);
      if err1.Err? {
        return Some(err1.error);
      }
      var anyInvalid := SomeInvalidProduct(patterns, matches, data.clientOrders);
      if anyInvalid.Err? {
        return Some(anyInvalid.error);
      }
      if err1.value != map[] || anyInvalid.value {
        return Some(ValueError);
      }
      i := i + 1;
    }
    assert ordersData[i..] == [];
    return None;
  }

  /** The build loop: each entry's client and products are built, the products counted and the
      cart put under the client. */
  method BuildAll(ordersData: seq<OrderData>, decimal: string -> real) returns (r: Result<Orders>)
    requires EntriesTyped(ordersData)
    ensures r == BuildOrders(ordersData, decimal)
  {
    var orders: Orders := [];
    var i := 0;
    while i < |ordersData|
      invariant 0 <= i <= |ordersData|
      invariant EntriesTyped(ordersData[..i])
      invariant BuildOrders(ordersData[..i], decimal) == Ok(orders)
    {
      assert ordersData[..i + 1][..i] == ordersData[..i] && ordersData[..i + 1][i] == ordersData[i];
      assert EntriesTyped(ordersData[..i + 1]);
      var next := BuildEntry(ordersData[..i + 1], orders, decimal);
      if next.Err? {
        BuildFaultPropagates(ordersData, i + 1, decimal);
        return next;
      }
      orders := next.value;
      i := i + 1;
    }
    assert ordersData[..i] == ordersData;
    return Ok(orders);
  }

  /** One turn of the build loop, on the snapshot built from the entries before the last. */
  method BuildEntry(data: seq<OrderData>, orders: Orders, decimal: string -> real) returns (r: Result<Orders>)
    requires EntriesTyped(data) && |data| > 0
    requires EntriesTyped(data[..|data| - 1]) && BuildOrders(data[..|data| - 1], decimal) == Ok(orders)
    ensures r == BuildOrders(data, decimal)
  {
    var clientOrder := data[|data| - 1];
    EntriesTypedSplit(data);
    var client := ClientFromDict(clientOrder.client, decimal);
    if client.Err? {
      return Err(client.error);
    }
    var clOrders := ProductsFromDictsLoop(clientOrder.clientOrders, decimal);
    if clOrders.Err? {
      return Err(clOrders.error);
    }
    var cart := CountProducts(clOrders.value);
    return Ok(Put(orders, client.value, cart));
  }

  /** The comprehension over the product dictionaries of one entry. */
  method SomeInvalidProduct(patterns: Patterns, matches: Matcher, orders: seq<map<string, Raw>>) returns (r: Result<bool>)
    ensures r == SomeProductInvalid(patterns, matches, orders)
  {
    var found: seq<bool> := [];
    var j := 0;
    while j < |orders|
      invariant 0 <= j <= |orders|
      invariant SomeProductInvalid(patterns, matches, orders) ==
        match SomeProductInvalid(patterns, matches, orders[j..])
        case Err(e) => Err(e)
        case Ok(b) => Ok(found != [] || b)
    {
      assert orders[j..][0] == orders[j] && orders[j..][1..] == orders[j + 1..];
      var errs := ValidateProductData(patterns, matches, orders[j]);
      if errs.Err? {
        return Err(errs.error);
      }
      if errs.value != map[] {
        found := found + [true];
      }
      j := j + 1;
    }
    return Ok(found != []);
  }

  /** `[Product.from_dict(data) for data in ...]` */
  method ProductsFromDictsLoop(ds: seq<map<string, Raw>>, decimal: string -> real) returns (r: Result<seq<Product>>)
    requires ProductsTyped(ds)
    ensures r == ProductsFromDicts(ds, decimal)
  {
    var products: seq<Product> := [];
    var j := 0;
    assert ds[0..] == ds;
    if ProductsFromDicts(ds, decimal).Ok? {
      assert products + ProductsFromDicts(ds, decimal).value == ProductsFromDicts(ds, decimal).value;
    }
    while j < |ds|
      invariant 0 <= j <= |ds|
      invariant ProductsTyped(ds[j..])
      invariant ProductsFromDicts(ds, decimal) ==
        match ProductsFromDicts(ds[j..], decimal)
        case Err(e) => Err(e)
        case Ok(rest) => Ok(products + rest)
    {
      assert ds[j..][0] == ds[j] && ds[j..][1..] == ds[j + 1..];
      var p := ProductFromDict(ds[j], decimal);
      if p.Err? {
        return Err(p.error);
      }
      if ProductsFromDicts(ds[j + 1..], decimal).Ok? {
        var rest := ProductsFromDicts(ds[j + 1..], decimal).value;
        assert products + ([p.value] + rest) == (products + [p.value]) + rest;
      }
      products := products + [p.value];
      j := j + 1;
    }
    assert ds[j..] == [];
    assert products + [] == products;
    return Ok(products);
  }

  /** The `defaultdict(int)` loop: one added to an order's count for each occurrence. */
  method CountProducts(products: seq<Product>) returns (cart: Cart)
    ensures cart == Counts(products)
  {
    cart := [];
    var k := 0;
    while k < |products|
      invariant 0 <= k <= |products|
      invariant cart == Counts(products[..k])
    {
      assert products[..k + 1][..k] == products[..k];
      cart := Add(cart, products[k], 1);
      k := k + 1;
    }
    assert products[..k] == products;
  }

  /** A fault in the first n entries is the fault of the whole build. */
  lemma {:induction false} BuildFaultPropagates(data: seq<OrderData>, n: nat, decimal: string -> real)
    requires EntriesTyped(data)
    requires n <= |data|
    requires EntriesTyped(data[..n])
    requires BuildOrders(data[..n], decimal).Err?
    ensures BuildOrders(data, decimal) == BuildOrders(data[..n], decimal)
    decreases |data| - n
  {
    if n < |data| {
      var longer := data[..n + 1];
      assert longer[..n] == data[..n];
      assert EntriesTyped(longer);
      BuildFaultPropagates(data, n + 1, decimal);
    } else {
      assert data[..n] == data;
    }
  }

  // ---------------------------------------------------------------------------
  // What the loaded snapshot is
  // ---------------------------------------------------------------------------

  /** One successful step of the build: the prefix built, the last entry's client and products
      built, and the last cart put in. */
  lemma BuildStep(data: seq<OrderData>, decimal: string -> real)
    requires EntriesTyped(data) && |data| > 0
    requires BuildOrders(data, decimal).Ok?
    ensures EntriesTyped(data[..|data| - 1])
    ensures ClientDataTyped(data[|data| - 1].client) && ProductsTyped(data[|data| - 1].clientOrders)
    ensures BuildOrders(data[..|data| - 1], decimal).Ok?
    ensures ClientFromDict(data[|data| - 1].client, decimal).Ok?
    ensures ProductsFromDicts(data[|data| - 1].clientOrders, decimal).Ok?
  {
    EntriesTypedSplit(data);
  }

  lemma BuildStepValue(data: seq<OrderData>, decimal: string -> real)
    requires EntriesTyped(data) && |data| > 0
    requires BuildOrders(data, decimal).Ok?
    ensures EntriesTyped(data[..|data| - 1])
    ensures ClientDataTyped(data[|data| - 1].client) && ProductsTyped(data[|data| - 1].clientOrders)
    ensures BuildOrders(data[..|data| - 1], decimal).Ok?
    ensures ClientFromDict(data[|data| - 1].client, decimal).Ok?
    ensures ProductsFromDicts(data[|data| - 1].clientOrders, decimal).Ok?
    ensures BuildOrders(data, decimal).value ==
      Put(BuildOrders(data[..|data| - 1], decimal).value,
          ClientFromDict(data[|data| - 1].client, decimal).value,
          Counts(ProductsFromDicts(data[|data| - 1].clientOrders, decimal).value))
  {
    BuildStep(data, decimal);
  }

  /** When the build succeeds, every entry's client and products were built. */
  lemma {:induction false} BuildEntriesOk(data: seq<OrderData>, decimal: string -> real)
    requires EntriesTyped(data)
    requires BuildOrders(data, decimal).Ok?
    ensures forall i :: 0 <= i < |data| ==>
      ClientFromDict(data[i].client, decimal).Ok? && ProductsFromDicts(data[i].clientOrders, decimal).Ok?
  {
    if data != [] {
      var init := data[..|data| - 1];
      BuildStep(data, decimal);
      BuildEntriesOk(init, decimal);
      forall i | 0 <= i < |data|
        ensures ClientFromDict(data[i].client, decimal).Ok? && ProductsFromDicts(data[i].clientOrders, decimal).Ok?
      {
        if i < |init| {
          assert init[i] == data[i];
        } else {
          assert i == |data| - 1;
        }
      }
    }
  }

  /** Every entry's client is a key of the snapshot. */
  lemma {:induction false} BuildKeyOfEntry(data: seq<OrderData>, decimal: string -> real, i: nat)
    requires EntriesTyped(data)
    requires BuildOrders(data, decimal).Ok?
    requires i < |data|
    ensures ClientFromDict(data[i].client, decimal).Ok?
    ensures ClientFromDict(data[i].client, decimal).value in Firsts(BuildOrders(data, decimal).value)
  {
    var init := data[..|data| - 1];
    BuildStepValue(data, decimal);
    if i < |init| {
      BuildKeyOfEntry(init, decimal, i);
      assert init[i] == data[i];
    } else {
      assert i == |data| - 1;
    }
  }

  /** Every key of the snapshot is the client of some entry. */
  lemma {:induction false} BuildKeyHasEntry(data: seq<OrderData>, decimal: string -> real, c: Client) returns (i: nat)
    requires EntriesTyped(data)
    requires BuildOrders(data, decimal).Ok?
    requires c in Firsts(BuildOrders(data, decimal).value)
    ensures i < |data| && ClientFromDict(data[i].client, decimal) == Ok(c)
  {
    var init := data[..|data| - 1];
    BuildStepValue(data, decimal);
    var orders := BuildOrders(init, decimal).value;
    if c in Firsts(orders) {
      i := BuildKeyHasEntry(init, decimal, c);
      assert init[i] == data[i];
    } else {
      i := |data| - 1;
    }
  }

  /** The snapshot has distinct clients and, in each cart, distinct products. */
  lemma {:induction false} BuildIsValid(data: seq<OrderData>, decimal: string -> real)
    requires EntriesTyped(data)
    requires BuildOrders(data, decimal).Ok?
    ensures ValidOrders(BuildOrders(data, decimal).value)
  {
    if data != [] {
      var init := data[..|data| - 1];
      var last := data[|data| - 1];
      EntriesTypedSplit(data);
      BuildIsValid(init, decimal);
      var orders := BuildOrders(init, decimal).value;
      var client := ClientFromDict(last.client, decimal).value;
      var cart := Counts(ProductsFromDicts(last.clientOrders, decimal).value);
      var r := Put(orders, client, cart);
      assert r == BuildOrders(data, decimal).value;
      assert Distinct(Firsts(r)) by {
        if client !in Firsts(orders) {
          DistinctAppend(Firsts(orders), client);
        }
      }
      forall i | 0 <= i < |r|
        ensures Distinct(Firsts(r[i].1))
      {
        PutEntries(orders, client, cart, i);
        if r[i] != (client, cart) {
          var k :| 0 <= k < |orders| && orders[k] == r[i];
        }
      }
    }
  }

  /** A client's cart comes from the last entry with that client: its quantities are those of the
      entry's products. */
  lemma {:induction false} BuildLastEntryWins(data: seq<OrderData>, decimal: string -> real, i: nat)
    requires EntriesTyped(data)
    requires BuildOrders(data, decimal).Ok?
    requires i < |data|
    requires forall k :: i < k < |data| ==> ClientFromDict(data[k].client, decimal) != ClientFromDict(data[i].client, decimal)
    ensures ClientFromDict(data[i].client, decimal).Ok? && ProductsFromDicts(data[i].clientOrders, decimal).Ok?
    ensures Lookup(BuildOrders(data, decimal).value, ClientFromDict(data[i].client, decimal).value)
      == Some(Counts(ProductsFromDicts(data[i].clientOrders, decimal).value))
  {
    BuildEntriesOk(data, decimal);
    var init := data[..|data| - 1];
    var last := data[|data| - 1];
    BuildStepValue(data, decimal);
    PutLookup(BuildOrders(init, decimal).value, ClientFromDict(last.client, decimal).value,
      Counts(ProductsFromDicts(last.clientOrders, decimal).value), ClientFromDict(data[i].client, decimal).value);
    if i < |data| - 1 {
      assert forall k :: 0 <= k < |init| ==> init[k] == data[k];
      BuildLastEntryWins(init, decimal, i);
      assert ClientFromDict(last.client, decimal) != ClientFromDict(data[i].client, decimal);
    }
  }

  /** A record that fails validation, with every earlier entry passing and no field missing at it,
      makes the call raise ValueError: no orders are built. */
  lemma {:induction false} InvalidEntryRejected(patterns: Patterns, matches: Matcher, decimal: string -> real, data: seq<OrderData>, i: nat)
    requires i < |data|
    requires forall k :: 0 <= k < i ==> EntryInvalid(patterns, matches, data[k]) == Ok(false)
    requires EntryInvalid(patterns, matches, data[i]) == Ok(true)
    ensures Load(patterns, matches, decimal, data) == Err(ValueError)
  {
    InvalidEntryFault(patterns, matches, data, i);
  }

  lemma {:induction false} InvalidEntryFault(patterns: Patterns, matches: Matcher, data: seq<OrderData>, i: nat)
    requires i < |data|
    requires forall k :: 0 <= k < i ==> EntryInvalid(patterns, matches, data[k]) == Ok(false)
    requires EntryInvalid(patterns, matches, data[i]) == Ok(true)
    ensures ValidationFault(patterns, matches, data) == Some(ValueError)
  {
    if i > 0 {
      var rest := data[1..];
      assert forall k :: 1 <= k < |data| ==> data[k] == rest[k - 1];
      InvalidEntryFault(patterns, matches, rest, i - 1);
    }
  }

  /** A snapshot that loads is well formed and holds exactly the clients of the entries. */
  lemma LoadedSnapshot(patterns: Patterns, matches: Matcher, decimal: string -> real, data: seq<OrderData>, c: Client)
    requires Load(patterns, matches, decimal, data).Ok?
    ensures EntriesTyped(data)
    ensures ValidOrders(Load(patterns, matches, decimal, data).value)
    ensures c in Firsts(Load(patterns, matches, decimal, data).value) <==>
      exists k :: 0 <= k < |data| && ClientFromDict(data[k].client, decimal) == Ok(c)
  {
    ValidatedEntriesAreTyped(patterns, matches, data);
    assert Load(patterns, matches, decimal, data) == BuildOrders(data, decimal);
    BuildIsValid(data, decimal);
    if c in Firsts(BuildOrders(data, decimal).value) {
      var k := BuildKeyHasEntry(data, decimal, c);
    }
    if k :| 0 <= k < |data| && ClientFromDict(data[k].client, decimal) == Ok(c) {
      BuildKeyOfEntry(data, decimal, k);
    }
  }

  /** In a snapshot that loads, a client's cart is the one of its last entry: each product's
      quantity is the number of equal products in that entry's list, at least one, and the
      quantities add up to the list's length. (Every input that loads has typed entries, by
      LoadedSnapshot; the requirement only lets the later-entries condition be stated.) */
  lemma LoadedCart(patterns: Patterns, matches: Matcher, decimal: string -> real, data: seq<OrderData>, i: nat)
    requires Load(patterns, matches, decimal, data).Ok?
    requires EntriesTyped(data)
    requires i < |data|
    requires forall k :: i < k < |data| ==> ClientFromDict(data[k].client, decimal) != ClientFromDict(data[i].client, decimal)
    ensures ClientFromDict(data[i].client, decimal).Ok? && ProductsFromDicts(data[i].clientOrders, decimal).Ok?
    ensures
      var products := ProductsFromDicts(data[i].clientOrders, decimal).value;
      var cart := Lookup(Load(patterns, matches, decimal, data).value, ClientFromDict(data[i].client, decimal).value);
      && cart == Some(Counts(products))
      && (forall p :: CountIn(cart.value, p) == multiset(products)[p])
      && (forall j :: 0 <= j < |cart.value| ==> cart.value[j].1 >= 1)
      && ValueSum(cart.value) == |data[i].clientOrders|
  {
    ValidatedEntriesAreTyped(patterns, matches, data);
    assert Load(patterns, matches, decimal, data) == BuildOrders(data, decimal);
    BuildLastEntryWins(data, decimal, i);
    var products := ProductsFromDicts(data[i].clientOrders, decimal).value;
    ProductsFromDictsMeaning(data[i].clientOrders, decimal);
    CountsArePositive(products);
    assert |products| == |data[i].clientOrders|;
  }
}
