/** The queries of the orders service over a snapshot of client carts. None of them changes the
    snapshot: each is a method that reads `orders` and builds a new result. */
module Service {
  import opened Outcomes
  import opened Common
  import opened Ranking
  import opened Model

  // ---------------------------------------------------------------------------
  // Cart values
  // ---------------------------------------------------------------------------

  /** `sum([product.cost_for_n(q) for product, q in cart.items()])`, in the cart's order. */
  function CartValue(cart: Cart): real {
    if cart == [] then 0.0 else CostForN(cart[0].0, cart[0].1).value + CartValue(cart[1..])
  }

  /** The same sum restricted to the products of one category. */
  function CategorySpend(cart: Cart, category: Category): real {
    if cart == [] then 0.0
    else
      (if cart[0].0.category == category then CostForN(cart[0].0, cart[0].1).value else 0.0)
      + CategorySpend(cart[1..], category)
  }

  /** The spend of a cart splits across the five categories. */
  lemma {:induction false} CategorySpendsAddUp(cart: Cart)
    ensures CartValue(cart) ==
      CategorySpend(cart, HOME) + CategorySpend(cart, ELECTRONICS) + CategorySpend(cart, KITCHEN)
      + CategorySpend(cart, RTV) + CategorySpend(cart, AGD)
  {
    if cart != [] {
      CategorySpendsAddUp(cart[1..]);
    }
  }

  /** With no negative prices, no spend is negative and the spend in a category is at most the
      cart's value. */
  lemma {:induction false} CategorySpendBounds(cart: Cart, category: Category)
    requires forall i :: 0 <= i < |cart| ==> cart[i].0.price >= 0.0
    ensures 0.0 <= CategorySpend(cart, category) <= CartValue(cart)
  {
    if cart != [] {
      assert forall i :: 1 <= i < |cart| ==> cart[1..][i - 1] == cart[i];
      CategorySpendBounds(cart[1..], category);
      assert CostForN(cart[0].0, cart[0].1).value >= 0.0;
    }
  }

  /** `(client, spend)` for every client, in the snapshot's order. */
  function SpendPairs(orders: Orders): (r: seq<(Client, real)>)
    ensures |r| == |orders|
    ensures forall i :: 0 <= i < |orders| ==> r[i] == (orders[i].0, CartValue(orders[i].1))
  {
    if orders == [] then []
    else
      var n := |orders| - 1;
      SpendPairs(orders[..n]) + [(orders[n].0, CartValue(orders[n].1))]
  }

  function CategorySpendPairs(orders: Orders, category: Category): (r: seq<(Client, real)>)
    ensures |r| == |orders|
    ensures forall i :: 0 <= i < |orders| ==> r[i] == (orders[i].0, CategorySpend(orders[i].1, category))
  {
    if orders == [] then []
    else
      var n := |orders| - 1;
      CategorySpendPairs(orders[..n], category) + [(orders[n].0, CategorySpend(orders[n].1, category))]
  }

  /** The sort key `lambda item: item[1]`. */
  function SpendOf(p: (Client, real)): real {
    p.1
  }

  lemma SpendPairsKeys(orders: Orders)
    ensures Firsts(SpendPairs(orders)) == Firsts(orders)
  {
  }

  /** In a list of (client, spend) pairs with distinct clients, a client is among the pairs of
      spend v exactly when its own pair has spend v. */
  lemma ClientsWithSpend(pairs: seq<(Client, real)>, v: real, i: nat)
    requires Distinct(Firsts(pairs))
    requires i < |pairs|
    ensures pairs[i].0 in Firsts(WithKey(pairs, SpendOf, v)) <==> pairs[i].1 == v
  {
    DistinctKeyOnce(pairs, i);
    WithKeyMembers(pairs, SpendOf, v);
    if pairs[i].1 == v {
      SpenderIsKept(pairs, v, i);
    }
    if pairs[i].0 in Firsts(WithKey(pairs, SpendOf, v)) {
      KeptSpenderHasSpend(pairs, v, i);
    }
  }

  lemma SpenderIsKept(pairs: seq<(Client, real)>, v: real, i: nat)
    requires i < |pairs| && pairs[i].1 == v
    requires forall j :: 0 <= j < |pairs| && SpendOf(pairs[j]) == v ==> pairs[j] in WithKey(pairs, SpendOf, v)
    ensures pairs[i].0 in Firsts(WithKey(pairs, SpendOf, v))
  {
    var w := WithKey(pairs, SpendOf, v);
    assert SpendOf(pairs[i]) == v;
    var j :| 0 <= j < |w| && w[j] == pairs[i];
    assert Firsts(w)[j] == pairs[i].0;
  }

  lemma KeptSpenderHasSpend(pairs: seq<(Client, real)>, v: real, i: nat)
    requires i < |pairs|
    requires forall j :: 0 <= j < |pairs| && pairs[j].0 == pairs[i].0 ==> j == i
    requires forall j :: 0 <= j < |WithKey(pairs, SpendOf, v)| ==>
      WithKey(pairs, SpendOf, v)[j] in pairs && SpendOf(WithKey(pairs, SpendOf, v)[j]) == v
    requires pairs[i].0 in Firsts(WithKey(pairs, SpendOf, v))
    ensures pairs[i].1 == v
  {
    var w := WithKey(pairs, SpendOf, v);
    var j :| 0 <= j < |w| && Firsts(w)[j] == pairs[i].0;
    assert w[j] in pairs;
    var k :| 0 <= k < |pairs| && pairs[k] == w[j];
  }

  // ---------------------------------------------------------------------------
  // client_with_biggest_spend
  // ---------------------------------------------------------------------------

  /** The largest spend of any client. */
  function MaxSpend(orders: Orders): (m: real)
    requires |orders| > 0
    ensures forall i :: 0 <= i < |orders| ==> CartValue(orders[i].1) <= m
    ensures exists i :: 0 <= i < |orders| && CartValue(orders[i].1) == m
  {
    var pairs := SpendPairs(orders);
    var m := MaxKey(pairs, SpendOf);
    assert forall i :: 0 <= i < |orders| ==> SpendOf(pairs[i]) == CartValue(orders[i].1);
    assert forall i :: 0 <= i < |orders| ==> pairs[i] in pairs;
    m
  }

  /** The clients, sorted by spend with the largest first, cut after the leading group. */
  function BiggestSpenders(orders: Orders): seq<Client> {
    if orders == [] then []
    else
      var ranked := SortedDesc(SpendPairs(orders), SpendOf);
      Firsts(ranked[..TopCount(ranked)])
  }

  /** The result is the clients whose spend is the largest, in the snapshot's order. */
  lemma BiggestSpendersAreTop(orders: Orders)
    requires |orders| > 0
    ensures BiggestSpenders(orders) == Firsts(WithKey(SpendPairs(orders), SpendOf, MaxSpend(orders)))
  {
    TopOfRanking(SpendPairs(orders), SpendOf);
  }

  /** A client is returned exactly when no client spends more. */
  lemma BiggestSpendersMembership(orders: Orders, i: nat)
    requires ValidOrders(orders)
    requires i < |orders|
    ensures orders[i].0 in BiggestSpenders(orders) <==> CartValue(orders[i].1) == MaxSpend(orders)
    ensures orders[i].0 in BiggestSpenders(orders) <==> forall j :: 0 <= j < |orders| ==> CartValue(orders[j].1) <= CartValue(orders[i].1)
  {
    BiggestSpendersAreTop(orders);
    SpendPairsKeys(orders);
    ClientsWithSpend(SpendPairs(orders), MaxSpend(orders), i);
  }

  /** `client_with_biggest_spend`: [] for an empty snapshot; otherwise the spends are collected
      client by client, sorted largest first, and the leading group returned. */
  method ClientWithBiggestSpend(orders: Orders) returns (r: seq<Client>)
    ensures r == BiggestSpenders(orders)
  {
    if orders == [] {
      return [];
    }
    var spends: seq<(Client, real)> := [];
    var i := 0;
    while i < |orders|
      invariant 0 <= i <= |orders|
      invariant spends == SpendPairs(orders[..i])
    {
      assert orders[..i + 1][..i] == orders[..i];
      spends := spends + [(orders[i].0, CartValue(orders[i].1))];
      i := i + 1;
    }
    assert orders[..i] == orders;
    var descending := SortedDesc(spends, SpendOf);
    var idx := GetNTopElementsOfMostCommonList(descending);
    r := Firsts(descending[..idx.value]);
  }

  // ---------------------------------------------------------------------------
  // client_with_biggest_spend_in_category
  // ---------------------------------------------------------------------------

  function MaxCategorySpend(orders: Orders, category: Category): (m: real)
    requires |orders| > 0
    ensures forall i :: 0 <= i < |orders| ==> CategorySpend(orders[i].1, category) <= m
    ensures exists i :: 0 <= i < |orders| && CategorySpend(orders[i].1, category) == m
  {
    var pairs := CategorySpendPairs(orders, category);
    var m := MaxKey(pairs, SpendOf);
    assert forall i :: 0 <= i < |orders| ==> SpendOf(pairs[i]) == CategorySpend(orders[i].1, category);
    assert forall i :: 0 <= i < |orders| ==> pairs[i] in pairs;
    m
  }

  /** As BiggestSpenders for the spend in one category, but [] when the top spend is zero. */
  function BiggestSpendersInCategory(orders: Orders, category: Category): seq<Client> {
    if orders == [] then []
    else
      var ranked := SortedDesc(CategorySpendPairs(orders, category), SpendOf);
      if ranked[0].1 == 0.0 then []
      else Firsts(ranked[..TopCount(ranked)])
  }

  /** The result is empty when the largest spend in the category is zero, and otherwise the
      clients with the largest spend in it, in the snapshot's order. */
  lemma BiggestSpendersInCategoryAreTop(orders: Orders, category: Category)
    requires |orders| > 0
    ensures BiggestSpendersInCategory(orders, category) == [] <==> MaxCategorySpend(orders, category) == 0.0
    ensures MaxCategorySpend(orders, category) != 0.0 ==>
      BiggestSpendersInCategory(orders, category)
        == Firsts(WithKey(CategorySpendPairs(orders, category), SpendOf, MaxCategorySpend(orders, category)))
  {
    TopOfRanking(CategorySpendPairs(orders, category), SpendOf);
  }

  /** With a non-zero top spend, a client is returned exactly when no client spends more in the
      category. */
  lemma BiggestSpendersInCategoryMembership(orders: Orders, category: Category, i: nat)
    requires ValidOrders(orders)
    requires i < |orders|
    requires MaxCategorySpend(orders, category) != 0.0
    ensures orders[i].0 in BiggestSpendersInCategory(orders, category)
      <==> CategorySpend(orders[i].1, category) == MaxCategorySpend(orders, category)
  {
    BiggestSpendersInCategoryAreTop(orders, category);
    assert Firsts(CategorySpendPairs(orders, category)) == Firsts(orders);
    ClientsWithSpend(CategorySpendPairs(orders, category), MaxCategorySpend(orders, category), i);
  }

  /** `client_with_biggest_spend_in_category`. */
  method ClientWithBiggestSpendInCategory(orders: Orders, category: Category) returns (r: seq<Client>)
    ensures r == BiggestSpendersInCategory(orders, category)
  {
    if orders == [] {
      return [];
    }
    var spends: seq<(Client, real)> := [];
    var i := 0;
    while i < |orders|
      invariant 0 <= i <= |orders|
      invariant spends == CategorySpendPairs(orders[..i], category)
    {
      assert orders[..i + 1][..i] == orders[..i];
      spends := spends + [(orders[i].0, CategorySpend(orders[i].1, category))];
      i := i + 1;
    }
    assert orders[..i] == orders;
    var descending := SortedDesc(spends, SpendOf);
    if descending[0].1 == 0.0 {
      return [];
    }
    var idx := GetNTopElementsOfMostCommonList(descending);
    r := Firsts(descending[..idx.value]);
  }

  // ---------------------------------------------------------------------------
  // clients_with_carts_value
  // ---------------------------------------------------------------------------

  /** `clients_with_carts_value`: one entry per client, in the snapshot's order, holding the value
      of the client's cart. */
  method ClientsWithCartsValue(orders: Orders) returns (r: seq<(Client, real)>)
    ensures |r| == |orders| && Firsts(r) == Firsts(orders)
    ensures forall i :: 0 <= i < |orders| ==> r[i] == (orders[i].0, CartValue(orders[i].1))
  {
    r := [];
    var i := 0;
    while i < |orders|
      invariant 0 <= i <= |orders|
      invariant |r| == i
      invariant forall k :: 0 <= k < i ==> r[k] == (orders[k].0, CartValue(orders[k].1))
    {
      r := r + [(orders[i].0, CartValue(orders[i].1))];
      i := i + 1;
    }
  }

  // ---------------------------------------------------------------------------
  // clients_balances_after_completing_orders
  // ---------------------------------------------------------------------------

  /** `balance_after_spending` accepts only a Decimal, and `sum` of an empty list is the int 0:
      the cart's value is a Decimal exactly when the cart is not empty. */
  predicate ValueIsDecimal(cart: Cart) {
    cart != []
  }

  /** Each client's balance less the value of its cart, or TypeError when some cart is empty. */
  function Balances(orders: Orders): (r: Result<seq<(Client, real)>>)
    ensures r.Err? ==> r.error == TypeError
  {
    if orders == [] then Ok([])
    else
      var n := |orders| - 1;
      var init := orders[..n];
      match Balances(init)
      case Err(e) => Err(e)
      case Ok(b) =>
        if !ValueIsDecimal(orders[n].1) then Err(TypeError)
        else
          Ok(b + [(orders[n].0, BalanceAfterSpending(orders[n].0, CartValue(orders[n].1)))])
  }

  /** The balances fail exactly when some cart is empty; otherwise there is one entry per client,
      in order, holding its balance less the value of its cart. */
  lemma {:induction false} BalancesMeaning(orders: Orders)
    ensures Balances(orders).Err? <==> exists i :: 0 <= i < |orders| && !ValueIsDecimal(orders[i].1)
    ensures Balances(orders).Ok? ==> |Balances(orders).value| == |orders|
    ensures Balances(orders).Ok? ==> forall i :: 0 <= i < |orders| ==>
      Balances(orders).value[i] == (orders[i].0, BalanceAfterSpending(orders[i].0, CartValue(orders[i].1)))
  {
    if orders != [] {
      var n := |orders| - 1;
      var init := orders[..n];
      assert forall i :: 0 <= i < n ==> init[i] == orders[i];
      BalancesMeaning(init);
    }
  }

  /** `clients_balances_after_completing_orders`: the cart values first, then one balance per
      client, each looked up by the client. */
  method ClientsBalancesAfterCompletingOrders(orders: Orders) returns (r: Result<seq<(Client, real)>>)
    requires DistinctClients(orders)
    ensures r == Balances(orders)
  {
    var clientsWithSpend := ClientsWithCartsValue(orders);
    var container: seq<(Client, real)> := [];
    var i := 0;
    while i < |orders|
      invariant 0 <= i <= |orders|
      invariant Balances(orders[..i]) == Ok(container)
    {
      var client := orders[i].0;
      SpentOf(orders, clientsWithSpend, i);
      var spent := Lookup(clientsWithSpend, client).value;
      BalancesStep(orders, i, container);
      if !ValueIsDecimal(orders[i].1) {
        BalancesFaultPropagates(orders, i + 1);
        return Err(TypeError);
      }
      container := container + [(client, BalanceAfterSpending(client, spent))];
      i := i + 1;
    }
    assert orders[..i] == orders;
    return Ok(container);
  }

  /** One turn of the loop: the balances of one more client. */
  lemma BalancesStep(orders: Orders, i: nat, container: seq<(Client, real)>)
    requires i < |orders| && Balances(orders[..i]) == Ok(container)
    ensures Balances(orders[..i + 1]) ==
      if ValueIsDecimal(orders[i].1) then Ok(container + [(orders[i].0, BalanceAfterSpending(orders[i].0, CartValue(orders[i].1)))])
      else Err(TypeError)
  {
    assert orders[..i + 1][..i] == orders[..i];
  }

  /** With distinct clients, a client's spend is the value of its own cart. */
  lemma SpentOf(orders: Orders, spends: seq<(Client, real)>, i: nat)
    requires DistinctClients(orders) && i < |orders|
    requires |spends| == |orders| && forall j :: 0 <= j < |orders| ==> spends[j] == (orders[j].0, CartValue(orders[j].1))
    ensures Lookup(spends, orders[i].0) == Some(CartValue(orders[i].1))
  {
    assert forall j :: 0 <= j < |spends| && spends[j].0 == spends[i].0 ==> j == i;
    LookupOfUnique(spends, i);
  }

  /** No client is a key twice: the snapshot's keys are distinct. */
  predicate DistinctClients(orders: Orders) {
    forall i, j :: 0 <= i < j < |orders| ==> orders[i].0 != orders[j].0
  }

  /** A valid snapshot has distinct clients. */
  lemma ValidOrdersHaveDistinctClients(orders: Orders)
    requires ValidOrders(orders)
    ensures DistinctClients(orders)
  {
    assert forall i :: 0 <= i < |orders| ==> Firsts(orders)[i] == orders[i].0;
  }

  lemma {:induction false} BalancesFaultPropagates(orders: Orders, n: nat)
    requires n <= |orders|
    requires Balances(orders[..n]).Err?
    ensures Balances(orders) == Balances(orders[..n])
    decreases |orders| - n
  {
    if n < |orders| {
      assert orders[..n + 1][..n] == orders[..n];
      BalancesFaultPropagates(orders, n + 1);
    } else {
      assert orders[..n] == orders;
    }
  }

  // ---------------------------------------------------------------------------
  // most_popular_categories_for_clients_ages
  // ---------------------------------------------------------------------------

  /** `[product.category for product in cart.keys()]`: one entry per distinct product, whatever its
      quantity. */
  function CategoriesOf(cart: Cart): (r: seq<Category>)
    ensures |r| == |cart|
    ensures forall i :: 0 <= i < |cart| ==> r[i] == cart[i].0.category
  {
    if cart == [] then [] else [cart[0].0.category] + CategoriesOf(cart[1..])
  }

  /** `pools[age].extend(xs)` on a `defaultdict(list)`: extends the list of age, or appends a new
      entry for it. */
  function Extend(pools: seq<(int, seq<Category>)>, age: int, xs: seq<Category>): (r: seq<(int, seq<Category>)>)
    ensures Firsts(r) == if age in Firsts(pools) then Firsts(pools) else Firsts(pools) + [age]
    ensures Lookup(r, age) == Some((if Lookup(pools, age).Some? then Lookup(pools, age).value else []) + xs)
    ensures forall a :: a != age ==> Lookup(r, a) == Lookup(pools, a)
  {
    if pools == [] then
      var r := [(age, xs)];
      assert [] + xs == xs;
      assert Lookup(r, age) == Some(xs);
      r
    else if pools[0].0 == age then
      var r := [(age, pools[0].1 + xs)] + pools[1..];
      assert r[1..] == pools[1..];
      assert Firsts(pools) == [pools[0].0] + Firsts(pools[1..]);
      assert Firsts(r) == [age] + Firsts(r[1..]);
      r
    else
      var rest := Extend(pools[1..], age, xs);
      var r := [pools[0]] + rest;
      assert r[1..] == rest;
      assert Firsts(pools) == [pools[0].0] + Firsts(pools[1..]);
      assert Firsts(r) == [pools[0].0] + Firsts(rest);
      r
  }

  /** The first loop's dictionary: for each age, in order of its first client, the categories of
      that age's carts. */
  function AgePools(orders: Orders): seq<(int, seq<Category>)> {
    if orders == [] then []
    else
      var n := |orders| - 1;
      Extend(AgePools(orders[..n]), orders[n].0.age, CategoriesOf(orders[n].1))
  }

  /** Independently: the categories of the carts of the clients of one age, concatenated in the
      snapshot's order. */
  function PoolOf(orders: Orders, age: int): seq<Category> {
    if orders == [] then []
    else
      var n := |orders| - 1;
      PoolOf(orders[..n], age) + if orders[n].0.age == age then CategoriesOf(orders[n].1) else []
  }

  /** Each age is a key of the pools once. */
  lemma {:induction false} AgePoolsDistinct(orders: Orders)
    ensures Distinct(Firsts(AgePools(orders)))
  {
    if orders != [] {
      var n := |orders| - 1;
      var pools := AgePools(orders[..n]);
      AgePoolsDistinct(orders[..n]);
      if orders[n].0.age !in Firsts(pools) {
        DistinctAppend(Firsts(pools), orders[n].0.age);
      }
    }
  }

  /** The pools are keyed by exactly the ages of the clients. */
  lemma {:induction false} AgePoolsKeys(orders: Orders, age: int)
    ensures age in Firsts(AgePools(orders)) <==> exists i :: 0 <= i < |orders| && orders[i].0.age == age
  {
    if orders != [] {
      var n := |orders| - 1;
      var init := orders[..n];
      AgePoolsKeys(init, age);
      assert age in Firsts(AgePools(orders)) <==> age in Firsts(AgePools(init)) || age == orders[n].0.age;
      SomeClientOfAgeStep(orders, init, age);
    }
  }

  /** Some client has the age exactly when one before the last has it or the last has it. */
  lemma SomeClientOfAgeStep(orders: Orders, init: Orders, age: int)
    requires orders != [] && init == orders[..|orders| - 1]
    ensures (exists i :: 0 <= i < |orders| && orders[i].0.age == age) <==>
      (exists i :: 0 <= i < |init| && init[i].0.age == age) || orders[|orders| - 1].0.age == age
  {
    if exists i :: 0 <= i < |orders| && orders[i].0.age == age {
      var i :| 0 <= i < |orders| && orders[i].0.age == age;
      if i < |init| {
        assert init[i] == orders[i];
      }
    }
    if exists i :: 0 <= i < |init| && init[i].0.age == age {
      var i :| 0 <= i < |init| && init[i].0.age == age;
      assert init[i] == orders[i];
    }
  }

  /** The pool of an age is the concatenation of that age's carts; an age without a pool would
      have an empty one. */
  lemma {:induction false} AgePoolsLookup(orders: Orders, age: int)
    ensures (if Lookup(AgePools(orders), age).Some? then Lookup(AgePools(orders), age).value else []) == PoolOf(orders, age)
  {
    if orders != [] {
      var n := |orders| - 1;
      var init := orders[..n];
      AgePoolsLookup(init, age);
      if orders[n].0.age != age {
        assert PoolOf(orders, age) == PoolOf(init, age) + [];
      }
    }
  }

  /** Looking an age up in the pools gives the concatenation of that age's carts. */
  lemma AgePoolOfEntry(orders: Orders, i: nat)
    requires i < |AgePools(orders)|
    ensures AgePools(orders)[i].1 == PoolOf(orders, AgePools(orders)[i].0)
    ensures exists j :: 0 <= j < |orders| && orders[j].0.age == AgePools(orders)[i].0
  {
    var pools := AgePools(orders);
    AgePoolsDistinct(orders);
    LookupOfDistinct(pools, i);
    AgePoolsLookup(orders, pools[i].0);
    assert Firsts(pools)[i] == pools[i].0;
    AgePoolsKeys(orders, pools[i].0);
  }

  /** Every client of the age has an empty cart. */
  predicate EmptyCartsAtAge(orders: Orders, age: int) {
    forall i :: 0 <= i < |orders| && orders[i].0.age == age ==> orders[i].1 == []
  }

  /** An age's pool is empty exactly when every client of that age has an empty cart. */
  lemma {:induction false} PoolOfEmpty(orders: Orders, age: int)
    ensures PoolOf(orders, age) == [] <==> EmptyCartsAtAge(orders, age)
  {
    if orders != [] {
      var n := |orders| - 1;
      var init := orders[..n];
      PoolOfEmpty(init, age);
      assert forall i :: 0 <= i < n ==> init[i] == orders[i];
    }
  }

  /** `Counter(pool).most_common()` cut after its leading group. An empty pool has none, and
      the query raises IndexError for it. */
  function TopCategories(pool: seq<Category>): (r: seq<Category>)
    ensures r == [] <==> pool == []
  {
    TopKeys(Counts(pool))
  }

  /** The top categories of a pool are those that occur in it most often, in order of first
      occurrence. */
  lemma TopCategoriesAreMostFrequent(pool: seq<Category>, k: Category)
    requires pool != []
    ensures TopCategories(pool) == Firsts(WithKey(Counts(pool), CountKey, MaxKey(Counts(pool), CountKey)))
    ensures k in TopCategories(pool) <==>
      k in pool && forall k' :: k' in pool ==> multiset(pool)[k'] <= multiset(pool)[k]
  {
    var c := Counts(pool);
    TopKeysHaveMaxCount(c);
    TopKeysAreMax(c, k);
    assert forall k' :: k' in Firsts(c) <==> k' in pool;
  }

  /** No pool is empty. */
  predicate NoEmptyPool(pools: seq<(int, seq<Category>)>) {
    forall i :: 0 <= i < |pools| ==> |pools[i].1| > 0
  }

  lemma NoEmptyPoolStep(pools: seq<(int, seq<Category>)>, j: nat)
    requires j < |pools|
    ensures NoEmptyPool(pools[..j + 1]) <==> NoEmptyPool(pools[..j]) && |pools[j].1| > 0
    ensures |pools[j].1| == 0 ==> !NoEmptyPool(pools)
  {
    assert pools[..j + 1][j] == pools[j];
  }

  /** The second loop: each age with its top categories, or IndexError as soon as a pool is
      empty. */
  function TopPerAge(pools: seq<(int, seq<Category>)>): (r: Result<seq<(int, seq<Category>)>>)
    ensures r.Err? <==> !NoEmptyPool(pools)
    ensures r.Err? ==> r.error == IndexError
  {
    if !NoEmptyPool(pools) then Err(IndexError)
    else Ok(MapValues(pools, TopCategories))
  }

  function MostPopularByAge(orders: Orders): Result<seq<(int, seq<Category>)>> {
    TopPerAge(AgePools(orders))
  }

  /** The result has an entry for exactly the clients' ages, and each holds the categories that
      occur most often among that age's carts; it is IndexError when every client of some age
      has an empty cart. */
  lemma MostPopularByAgeMeaning(orders: Orders, i: nat, k: Category)
    requires MostPopularByAge(orders).Ok?
    requires i < |MostPopularByAge(orders).value|
    ensures exists j :: 0 <= j < |orders| && orders[j].0.age == MostPopularByAge(orders).value[i].0
    ensures
      var age := MostPopularByAge(orders).value[i].0;
      var pool := PoolOf(orders, age);
      && pool != []
      && (k in MostPopularByAge(orders).value[i].1 <==>
            k in pool && forall k' :: k' in pool ==> multiset(pool)[k'] <= multiset(pool)[k])
  {
    var pools := AgePools(orders);
    AgePoolOfEntry(orders, i);
    TopCategoriesAreMostFrequent(pools[i].1, k);
  }

  /** The result has an entry for exactly the clients' ages, each once. */
  lemma MostPopularByAgeKeys(orders: Orders, age: int)
    requires MostPopularByAge(orders).Ok?
    ensures Distinct(Firsts(MostPopularByAge(orders).value))
    ensures age in Firsts(MostPopularByAge(orders).value) <==> exists j :: 0 <= j < |orders| && orders[j].0.age == age
  {
    AgePoolsDistinct(orders);
    AgePoolsKeys(orders, age);
    assert Firsts(MostPopularByAge(orders).value) == Firsts(AgePools(orders));
  }

  /** The result fails exactly when all clients of some age have empty carts. */
  lemma MostPopularByAgeFails(orders: Orders)
    ensures MostPopularByAge(orders).Err? <==> exists j :: 0 <= j < |orders| && EmptyCartsAtAge(orders, orders[j].0.age)
  {
    var pools := AgePools(orders);
    assert MostPopularByAge(orders).Err? <==> !NoEmptyPool(pools);
    if !NoEmptyPool(pools) {
      var i :| 0 <= i < |pools| && |pools[i].1| == 0;
      AgePoolOfEntry(orders, i);
      PoolOfEmpty(orders, pools[i].0);
      var j :| 0 <= j < |orders| && orders[j].0.age == pools[i].0;
      assert EmptyCartsAtAge(orders, orders[j].0.age);
    }
    if exists j :: 0 <= j < |orders| && EmptyCartsAtAge(orders, orders[j].0.age) {
      var j :| 0 <= j < |orders| && EmptyCartsAtAge(orders, orders[j].0.age);
      var age := orders[j].0.age;
      AgePoolsKeys(orders, age);
      PoolOfEmpty(orders, age);
      var i :| 0 <= i < |Firsts(pools)| && Firsts(pools)[i] == age;
      AgePoolOfEntry(orders, i);
      assert |pools[i].1| == 0;
    }
  }

  /** Quantities play no part: two snapshots with the same clients and the same products in each
      cart give the same pools. */
  lemma {:induction false} AgePoolsIgnoreQuantities(orders: Orders, other: Orders)
    requires |orders| == |other|
    requires forall i :: 0 <= i < |orders| ==> orders[i].0 == other[i].0 && Firsts(orders[i].1) == Firsts(other[i].1)
    ensures AgePools(orders) == AgePools(other)
  {
    if orders != [] {
      var n := |orders| - 1;
      assert forall i :: 0 <= i < n ==> orders[..n][i] == orders[i] && other[..n][i] == other[i];
      AgePoolsIgnoreQuantities(orders[..n], other[..n]);
      assert CategoriesOf(orders[n].1) == CategoriesOf(other[n].1) by {
        assert forall i :: 0 <= i < |orders[n].1| ==> Firsts(orders[n].1)[i] == Firsts(other[n].1)[i];
      }
    }
  }

  /** The second loop's body: rank the pool's counter and keep its leading group; IndexError for
      an empty pool. */
  method RankCategories(pool: seq<Category>) returns (r: Result<seq<Category>>)
    ensures pool == [] ==> r == Err(IndexError)
    ensures pool != [] ==> r == Ok(TopCategories(pool))
  {
    var mostCommon := MostCommon(Counts(pool));
    var idx := GetNTopElementsOfMostCommonList(mostCommon);
    if idx.Err? {
      return Err(idx.error);
    }
    return Ok(Firsts(mostCommon[..idx.value]));
  }

  /** `most_popular_categories_for_clients_ages`: the pools are built client by client, then each
      pool's counter is ranked and cut after its leading group. */
  method MostPopularCategoriesForClientsAges(orders: Orders) returns (r: Result<seq<(int, seq<Category>)>>)
    ensures r == MostPopularByAge(orders)
  {
    var agesWithCategories: seq<(int, seq<Category>)> := [];
    var i := 0;
    while i < |orders|
      invariant 0 <= i <= |orders|
      invariant agesWithCategories == AgePools(orders[..i])
    {
      assert orders[..i + 1][..i] == orders[..i];
      var client := orders[i].0;
      agesWithCategories := Extend(agesWithCategories, client.age, CategoriesOf(orders[i].1));
      i := i + 1;
    }
    assert orders[..i] == orders;
    r := RankPools(agesWithCategories);
  }

  /** The second loop: rank each pool in turn, stopping at the first empty one. */
  method RankPools(pools: seq<(int, seq<Category>)>) returns (r: Result<seq<(int, seq<Category>)>>)
    ensures r == TopPerAge(pools)
  {
    var agesWithTopCategories: seq<(int, seq<Category>)> := [];
    var j := 0;
    while j < |pools|
      invariant 0 <= j <= |pools|
      invariant NoEmptyPool(pools[..j])
      invariant agesWithTopCategories == MapValues(pools[..j], TopCategories)
    {
      var pool := pools[j].1;
      var top := RankCategories(pool);
      NoEmptyPoolStep(pools, j);
      if top.Err? {
        return Err(top.error);
      }
      MapValuesStep(pools, TopCategories, j, agesWithTopCategories, top.value);
      agesWithTopCategories := agesWithTopCategories + [(pools[j].0, top.value)];
      j := j + 1;
    }
    assert pools[..j] == pools;
    return Ok(agesWithTopCategories);
  }



  // ---------------------------------------------------------------------------
  // categories_stats
  // ---------------------------------------------------------------------------

  /** `group.add(p)` on an insertion-ordered set. */
  function SetAdd(ps: seq<Product>, p: Product): (r: seq<Product>)
    ensures forall q :: q in r <==> q in ps || q == p
    ensures Distinct(ps) ==> Distinct(r)
  {
    if p in ps then ps else ps + [p]
  }

  /** `category_with_products[p.category].add(p)` on a `defaultdict(set)`: the category's first
      product opens a new group at the end. */
  function AddToGroup(groups: seq<(Category, seq<Product>)>, p: Product): (r: seq<(Category, seq<Product>)>)
    ensures Firsts(r) == if p.category in Firsts(groups) then Firsts(groups) else Firsts(groups) + [p.category]
  {
    if groups == [] then
      var r := [(p.category, [p])];
      assert Firsts(r) == [p.category] == [] + [p.category];
      r
    else if groups[0].0 == p.category then
      var r := [(p.category, SetAdd(groups[0].1, p))] + groups[1..];
      assert r[1..] == groups[1..];
      assert Firsts(groups) == [groups[0].0] + Firsts(groups[1..]);
      assert Firsts(r) == [p.category] + Firsts(r[1..]);
      r
    else
      var rest := AddToGroup(groups[1..], p);
      var r := [groups[0]] + rest;
      assert r[1..] == rest;
      assert Firsts(groups) == [groups[0].0] + Firsts(groups[1..]);
      assert Firsts(r) == [groups[0].0] + Firsts(rest);
      r
  }

  /** Only the product's own group changes, and it gains the product. */
  lemma {:induction false} AddToGroupLookup(groups: seq<(Category, seq<Product>)>, p: Product, c: Category)
    ensures Lookup(AddToGroup(groups, p), c) ==
      if c != p.category then Lookup(groups, c)
      else Some(SetAdd(if Lookup(groups, c).Some? then Lookup(groups, c).value else [], p))
  {
    if groups == [] {
      assert SetAdd([], p) == [p];
    } else if groups[0].0 != p.category {
      AddToGroupLookup(groups[1..], p, c);
    }
  }

  /** The products of every cart, client by client, each cart in its own order. */
  function BoughtProducts(orders: Orders): seq<Product> {
    if orders == [] then [] else BoughtProducts(orders[..|orders| - 1]) + Firsts(orders[|orders| - 1].1)
  }

  /** A product is listed exactly when it is in some client's cart. */
  lemma {:induction false} BoughtProductsMembers(orders: Orders, p: Product)
    ensures p in BoughtProducts(orders) <==> exists i :: 0 <= i < |orders| && p in Firsts(orders[i].1)
  {
    if orders != [] {
      var n := |orders| - 1;
      var init := orders[..n];
      BoughtProductsMembers(init, p);
      assert p in BoughtProducts(orders) <==> p in BoughtProducts(init) || p in Firsts(orders[n].1);
      SomeCartWithProductStep(orders, init, p);
    }
  }

  /** Some cart holds the product exactly when one before the last does or the last does. */
  lemma SomeCartWithProductStep(orders: Orders, init: Orders, p: Product)
    requires orders != [] && init == orders[..|orders| - 1]
    ensures (exists i :: 0 <= i < |orders| && p in Firsts(orders[i].1)) <==>
      (exists i :: 0 <= i < |init| && p in Firsts(init[i].1)) || p in Firsts(orders[|orders| - 1].1)
  {
    if exists i :: 0 <= i < |orders| && p in Firsts(orders[i].1) {
      var i :| 0 <= i < |orders| && p in Firsts(orders[i].1);
      if i < |init| {
        assert init[i] == orders[i];
      }
    }
    if exists i :: 0 <= i < |init| && p in Firsts(init[i].1) {
      var i :| 0 <= i < |init| && p in Firsts(init[i].1);
      assert init[i] == orders[i];
    }
  }

  /** The nested loop's dictionary: the products grouped into one set per category, the
      categories in order of first appearance. */
  function GroupProducts(ps: seq<Product>): seq<(Category, seq<Product>)> {
    if ps == [] then []
    else
      var n := |ps| - 1;
      AddToGroup(GroupProducts(ps[..n]), ps[n])
  }

  /** One step of the grouping: the last product is added to the groups of the others. */
  lemma GroupProductsUnfold(xs: seq<Product>, ys: seq<Product>, p: Product)
    requires xs != [] && xs[..|xs| - 1] == ys && xs[|xs| - 1] == p
    ensures GroupProducts(xs) == AddToGroup(GroupProducts(ys), p)
  {
  }

  /** Each category is a key at most once. */
  lemma {:induction false} GroupsDistinct(ps: seq<Product>)
    ensures Distinct(Firsts(GroupProducts(ps)))
  {
    if ps != [] {
      var n := |ps| - 1;
      var groups := GroupProducts(ps[..n]);
      GroupProductsUnfold(ps, ps[..n], ps[n]);
      GroupsDistinct(ps[..n]);
      if ps[n].category !in Firsts(groups) {
        DistinctAppend(Firsts(groups), ps[n].category);
      }
    }
  }

  /** The keys are exactly the categories of the products. */
  lemma {:induction false} GroupsKeys(ps: seq<Product>, c: Category)
    ensures c in Firsts(GroupProducts(ps)) <==> exists p :: p in ps && p.category == c
  {
    if ps != [] {
      var n := |ps| - 1;
      var init := ps[..n];
      GroupsKeys(init, c);
      GroupProductsUnfold(ps, init, ps[n]);
      var groups := GroupProducts(init);
      assert c in Firsts(GroupProducts(ps)) <==> c in Firsts(groups) || c == ps[n].category;
      SomeOfCategoryStep(ps, c);
    }
  }

  lemma SomeOfCategoryStep(ps: seq<Product>, c: Category)
    requires ps != []
    ensures (exists p :: p in ps && p.category == c) <==>
      (exists p :: p in ps[..|ps| - 1] && p.category == c) || ps[|ps| - 1].category == c
  {
    var n := |ps| - 1;
    var init := ps[..n];
    if exists p :: p in init && p.category == c {
      var p :| p in init && p.category == c;
      var j :| 0 <= j < n && init[j] == p;
      assert ps[j] == p;
    }
    if exists p :: p in ps && p.category == c {
      var p :| p in ps && p.category == c;
      var j :| 0 <= j < |ps| && ps[j] == p;
      if j < n {
        assert init[j] == p;
      }
    }
  }

  /** The products grouped under c, none when c has no group. */
  function GroupOf(ps: seq<Product>, c: Category): seq<Product> {
    var g := Lookup(GroupProducts(ps), c);
    if g.Some? then g.value else []
  }

  /** One step of the grouping, seen from one category. */
  lemma GroupOfStep(ps: seq<Product>, c: Category)
    requires ps != []
    ensures GroupOf(ps, c) ==
      var init := ps[..|ps| - 1];
      if c == ps[|ps| - 1].category then SetAdd(GroupOf(init, c), ps[|ps| - 1]) else GroupOf(init, c)
  {
    var n := |ps| - 1;
    GroupProductsUnfold(ps, ps[..n], ps[n]);
    AddToGroupLookup(GroupProducts(ps[..n]), ps[n], c);
  }

  /** The group of a category holds each product of that category once, and nothing else. */
  lemma {:induction false} GroupsMembers(ps: seq<Product>, c: Category, q: Product)
    ensures Distinct(GroupOf(ps, c))
    ensures q in GroupOf(ps, c) <==> q in ps && q.category == c
  {
    if ps != [] {
      var n := |ps| - 1;
      var init := ps[..n];
      GroupsMembers(init, c, q);
      GroupOfStep(ps, c);
      MemberOfSnoc(ps, q);
    }
  }

  /** A member of a non-empty list is a member of its front or its last element. */
  lemma MemberOfSnoc<T>(s: seq<T>, x: T)
    requires s != []
    ensures x in s <==> x in s[..|s| - 1] || x == s[|s| - 1]
  {
    assert s == s[..|s| - 1] + [s[|s| - 1]];
  }

  /** Every group is a non-empty set. */
  lemma GroupNonEmpty(ps: seq<Product>, i: nat)
    requires i < |GroupProducts(ps)|
    ensures GroupProducts(ps)[i].1 != []
    ensures Distinct(GroupProducts(ps)[i].1)
  {
    var groups := GroupProducts(ps);
    var c := groups[i].0;
    GroupsDistinct(ps);
    LookupOfDistinct(groups, i);
    assert groups[i].1 == GroupOf(ps, c);
    assert Firsts(groups)[i] == c;
    GroupsKeys(ps, c);
    var p :| p in ps && p.category == c;
    GroupsMembers(ps, c, p);
  }

  /** A group holds exactly the products of its category. */
  lemma GroupMember(ps: seq<Product>, i: nat, q: Product)
    requires i < |GroupProducts(ps)|
    ensures q in GroupProducts(ps)[i].1 <==> q in ps && q.category == GroupProducts(ps)[i].0
  {
    var groups := GroupProducts(ps);
    var c := groups[i].0;
    GroupsDistinct(ps);
    LookupOfDistinct(groups, i);
    assert groups[i].1 == GroupOf(ps, c);
    GroupsMembers(ps, c, q);
  }

  /** The statistics of one category. */
  datatype Stats = Stats(priceMean: real, mostExpensiveProduct: seq<Product>, cheapestProduct: seq<Product>)

  function PriceOf(p: Product): real {
    p.price
  }

  function PriceSum(ps: seq<Product>): real {
    if ps == [] then 0.0 else PriceSum(ps[..|ps| - 1]) + ps[|ps| - 1].price
  }

  /** The mean price and the leading runs of the two sorts. A group is never empty (GroupNonEmpty);
      0.0 stands in for the division an empty one would fail. */
  function StatsOf(ps: seq<Product>): Stats {
    Stats(
      if ps == [] then 0.0 else PriceSum(ps) / |ps| as real,
      LeadingRun(SortedDesc(ps, PriceOf)),
      LeadingRun(SortedAsc(ps, PriceOf)))
  }

  /** Sequences with the same multiset, one of them without repeats, are both without repeats. */
  lemma DistinctPermutation<T>(a: seq<T>, b: seq<T>)
    requires multiset(a) == multiset(b)
    requires Distinct(a)
    ensures Distinct(b)
  {
    forall i, j | 0 <= i < j < |b|
      ensures b[i] != b[j]
    {
      var x := b[i];
      assert b == b[..j] + b[j..];
      assert x in b[..j] && b[j..][0] == b[j];
      assert multiset(b)[x] == multiset(b[..j])[x] + multiset(b[j..])[x];
      assert multiset(b[j..])[x] >= if b[j] == x then 1 else 0;
      DistinctOccursOnce(a, x);
    }
  }

  /** In a sequence without repeats every value occurs at most once. */
  lemma {:induction false} DistinctOccursOnce<T>(a: seq<T>, x: T)
    requires Distinct(a)
    ensures multiset(a)[x] <= 1
  {
    if a != [] {
      DistinctTail(a);
      DistinctOccursOnce(a[1..], x);
      assert a == [a[0]] + a[1..];
      assert forall k :: 0 <= k < |a[1..]| ==> a[1..][k] == a[k + 1];
      assert a[0] !in a[1..];
    }
  }

  /** For a set of distinct products, the most expensive and the cheapest "lists" each hold one
      product of the set, of the largest and of the smallest price. */
  lemma StatsExtremes(ps: seq<Product>)
    requires ps != [] && Distinct(ps)
    ensures |StatsOf(ps).mostExpensiveProduct| == 1 && |StatsOf(ps).cheapestProduct| == 1
    ensures StatsOf(ps).mostExpensiveProduct[0] in ps && StatsOf(ps).cheapestProduct[0] in ps
    ensures forall q :: q in ps ==> q.price <= StatsOf(ps).mostExpensiveProduct[0].price
    ensures forall q :: q in ps ==> StatsOf(ps).cheapestProduct[0].price <= q.price
  {
    var desc := SortedDesc(ps, PriceOf);
    var asc := SortedAsc(ps, PriceOf);
    DistinctPermutation(ps, desc);
    DistinctPermutation(ps, asc);
    LeadingRunOfDistinct(desc);
    LeadingRunOfDistinct(asc);
    SortedDescHead(ps, PriceOf);
    SortedAscHead(ps, PriceOf);
    forall q | q in ps
      ensures PriceOf(q) <= MaxKey(ps, PriceOf)
    {
    }
  }

  /** The mean times the number of products is their total price. */
  lemma StatsMean(ps: seq<Product>)
    requires ps != []
    ensures StatsOf(ps).priceMean * |ps| as real == PriceSum(ps)
  {
    MeanTimesCount(StatsOf(ps).priceMean, PriceSum(ps), |ps| as real);
  }

  lemma MeanTimesCount(mean: real, total: real, n: real)
    requires n != 0.0 && mean == total / n
    ensures mean * n == total
  {
  }

  /** `categories_stats`: the statistics of each category that occurs in some cart, in order of
      first occurrence. The guard for an empty snapshot returns the empty dictionary. */
  function CategoriesStats(orders: Orders): seq<(Category, Stats)> {
    if orders == [] then [] else MapValues(GroupProducts(BoughtProducts(orders)), StatsOf)
  }

  /** The empty-snapshot guard changes nothing: without it the loops produce no category either. */
  lemma StatsGuardIsRedundant(orders: Orders)
    ensures CategoriesStats(orders) == MapValues(GroupProducts(BoughtProducts(orders)), StatsOf)
  {
  }

  /** The result has one entry for each category of a bought product, each once. */
  lemma CategoriesStatsKeys(orders: Orders, c: Category)
    ensures Distinct(Firsts(CategoriesStats(orders)))
    ensures c in Firsts(CategoriesStats(orders)) <==>
      exists i, p :: 0 <= i < |orders| && p in Firsts(orders[i].1) && p.category == c
  {
    var ps := BoughtProducts(orders);
    var groups := GroupProducts(ps);
    GroupsDistinct(ps);
    GroupsKeys(ps, c);
    StatsGuardIsRedundant(orders);
    MapValuesKeys(groups, StatsOf);
    if exists i, p :: 0 <= i < |orders| && p in Firsts(orders[i].1) && p.category == c {
      var i, p :| 0 <= i < |orders| && p in Firsts(orders[i].1) && p.category == c;
      BoughtProductsMembers(orders, p);
    }
    if exists p :: p in ps && p.category == c {
      var p :| p in ps && p.category == c;
      BoughtProductsMembers(orders, p);
    }
  }

  /** The entries pair each group with its statistics. */
  lemma CategoriesStatsAt(orders: Orders, i: nat)
    requires i < |CategoriesStats(orders)|
    ensures i < |GroupProducts(BoughtProducts(orders))|
    ensures var group := GroupProducts(BoughtProducts(orders))[i];
      CategoriesStats(orders)[i] == (group.0, StatsOf(group.1))
  {
    var groups := GroupProducts(BoughtProducts(orders));
    StatsGuardIsRedundant(orders);
    assert |MapValues(groups, StatsOf)| == |groups|;
  }

  /** Each entry's group is the set of distinct bought products of its category. */
  lemma CategoriesStatsGroup(orders: Orders, i: nat)
    requires i < |CategoriesStats(orders)|
    ensures i < |GroupProducts(BoughtProducts(orders))|
    ensures var group := GroupProducts(BoughtProducts(orders))[i].1;
      && group != [] && Distinct(group)
      && forall q :: q in group <==>
        q.category == CategoriesStats(orders)[i].0 && exists j :: 0 <= j < |orders| && q in Firsts(orders[j].1)
  {
    var ps := BoughtProducts(orders);
    CategoriesStatsAt(orders, i);
    var group := GroupProducts(ps)[i].1;
    forall q
      ensures q in group <==>
        q.category == CategoriesStats(orders)[i].0 && exists j :: 0 <= j < |orders| && q in Firsts(orders[j].1)
    {
      GroupMember(ps, i, q);
      BoughtProductsMembers(orders, q);
    }
    GroupNonEmpty(ps, i);
  }

  /** What the statistics say about a set of products: the mean price, and one product of the
      largest and one of the smallest price. */
  predicate DescribesPrices(group: seq<Product>, stats: Stats) {
    && stats.priceMean * |group| as real == PriceSum(group)
    && |stats.mostExpensiveProduct| == 1 && stats.mostExpensiveProduct[0] in group
    && (forall q :: q in group ==> q.price <= stats.mostExpensiveProduct[0].price)
    && |stats.cheapestProduct| == 1 && stats.cheapestProduct[0] in group
    && (forall q :: q in group ==> stats.cheapestProduct[0].price <= q.price)
  }

  /** Each entry's statistics describe the distinct bought products of its category. */
  lemma CategoriesStatsEntry(orders: Orders, i: nat)
    requires i < |CategoriesStats(orders)|
    ensures i < |GroupProducts(BoughtProducts(orders))|
    ensures DescribesPrices(GroupProducts(BoughtProducts(orders))[i].1, CategoriesStats(orders)[i].1)
  {
    CategoriesStatsAt(orders, i);
    CategoriesStatsGroup(orders, i);
    var group := GroupProducts(BoughtProducts(orders))[i].1;
    StatsDescribe(group);
  }

  /** The statistics of a non-empty set of products describe it. */
  lemma StatsDescribe(group: seq<Product>)
    requires group != [] && Distinct(group)
    ensures DescribesPrices(group, StatsOf(group))
  {
    StatsExtremes(group);
    StatsMean(group);
  }

  /** The second loop's body: the statistics of one group, the two extremes found by the
      tie-break helper. */
  method GroupStats(products: seq<Product>) returns (stats: Stats)
    ensures stats == StatsOf(products)
  {
    var mean := if products == [] then 0.0 else PriceSum(products) / |products| as real;
    var mostExpensive := FirstElementsHavingSameValue(SortedDesc(products, PriceOf));
    var cheapest := FirstElementsHavingSameValue(SortedAsc(products, PriceOf));
    stats := Stats(mean, mostExpensive, cheapest);
  }

  /** `categories_stats`: the nested loop groups the products of every cart, then each group's
      statistics are computed. */
  method CategoriesStatsOf(orders: Orders) returns (r: seq<(Category, Stats)>)
    ensures r == CategoriesStats(orders)
  {
    if orders == [] {
      return [];
    }
    var groups: seq<(Category, seq<Product>)> := [];
    var i := 0;
    while i < |orders|
      invariant 0 <= i <= |orders|
      invariant groups == GroupProducts(BoughtProducts(orders[..i]))
    {
      BoughtProductsStep(orders, i);
      groups := GroupCart(BoughtProducts(orders[..i]), groups, orders[i].1);
      i := i + 1;
    }
    assert orders[..i] == orders;
    var stats: seq<(Category, Stats)> := [];
    var k := 0;
    while k < |groups|
      invariant 0 <= k <= |groups|
      invariant stats == MapValues(groups[..k], StatsOf)
    {
      var s := GroupStats(groups[k].1);
      MapValuesStep(groups, StatsOf, k, stats, s);
      stats := stats + [(groups[k].0, s)];
      k := k + 1;
    }
    assert groups[..k] == groups;
    return stats;
  }

  /** The inner loop: each product of one cart is added to its category's group. */
  method GroupCart(ghost done: seq<Product>, groups: seq<(Category, seq<Product>)>, cart: Cart)
    returns (r: seq<(Category, seq<Product>)>)
    requires groups == GroupProducts(done)
    ensures r == GroupProducts(done + Firsts(cart))
  {
    var products := Firsts(cart);
    r := groups;
    var j := 0;
    ghost var seen := done;
    assert seen == done + products[..0];
    while j < |products|
      invariant 0 <= j <= |products|
      invariant seen == done + products[..j]
      invariant r == GroupProducts(seen)
    {
      GroupProductsStep(done, products, j);
      r := AddToGroup(r, products[j]);
      j := j + 1;
      seen := done + products[..j];
    }
    assert products[..j] == products;
  }

  lemma BoughtProductsStep(orders: Orders, i: nat)
    requires i < |orders|
    ensures BoughtProducts(orders[..i + 1]) == BoughtProducts(orders[..i]) + Firsts(orders[i].1)
  {
    assert orders[..i + 1][..i] == orders[..i];
  }

  lemma GroupProductsStep(done: seq<Product>, ps: seq<Product>, j: nat)
    requires j < |ps|
    ensures GroupProducts(done + ps[..j + 1]) == AddToGroup(GroupProducts(done + ps[..j]), ps[j])
  {
    var xs := done + ps[..j + 1];
    assert xs[..|xs| - 1] == done + ps[..j];
    assert xs[|xs| - 1] == ps[j];
    GroupProductsUnfold(xs, done + ps[..j], ps[j]);
  }

  // ---------------------------------------------------------------------------
  // categories_with_biggest_clients
  // ---------------------------------------------------------------------------

  /** The cart holds some product of category k. */
  predicate HasCategory(cart: Cart, k: Category) {
    exists i :: 0 <= i < |cart| && cart[i].0.category == k
  }

  lemma HasCategoryStep(cart: Cart, k: Category)
    requires cart != []
    ensures HasCategory(cart, k) <==>
      HasCategory(cart[..|cart| - 1], k) || cart[|cart| - 1].0.category == k
  {
    var n := |cart| - 1;
    if HasCategory(cart, k) && cart[n].0.category != k {
      var i :| 0 <= i < |cart| && cart[i].0.category == k;
      assert cart[..n][i] == cart[i];
    }
    if HasCategory(cart[..n], k) {
      var i :| 0 <= i < n && cart[..n][i].0.category == k;
      assert cart[i] == cart[..n][i];
    }
  }

  /** The number of items of category k in a cart. */
  function CategoryQuantity(cart: Cart, k: Category): nat {
    if cart == [] then 0
    else
      var n := |cart| - 1;
      CategoryQuantity(cart[..n], k) + (if cart[n].0.category == k then cart[n].1 else 0)
  }

  /** `update_container_with_client_cart_data` seen from the counter of category k: each product
      of category k adds its quantity to the client's count, in the cart's order. */
  function AddCart(counter: seq<(Client, nat)>, client: Client, cart: Cart, k: Category): seq<(Client, nat)> {
    if cart == [] then counter
    else
      var n := |cart| - 1;
      var before := AddCart(counter, client, cart[..n], k);
      if cart[n].0.category == k then Add(before, client, cart[n].1) else before
  }

  lemma AddCartStep(counter: seq<(Client, nat)>, client: Client, cart: Cart, j: nat, k: Category)
    requires j < |cart|
    ensures AddCart(counter, client, cart[..j + 1], k) ==
      var before := AddCart(counter, client, cart[..j], k);
      if cart[j].0.category == k then Add(before, client, cart[j].1) else before
  {
    assert cart[..j + 1][..j] == cart[..j];
  }

  /** Adding a cart makes the client a key exactly when the cart has a product of category k,
      and raises only the client's count, by the cart's quantity of category k. */
  lemma {:induction false} AddCartEffect(counter: seq<(Client, nat)>, client: Client, cart: Cart, k: Category, x: Client)
    ensures x in Firsts(AddCart(counter, client, cart, k)) <==>
      x in Firsts(counter) || (x == client && HasCategory(cart, k))
    ensures CountIn(AddCart(counter, client, cart, k), x) ==
      CountIn(counter, x) + (if x == client then CategoryQuantity(cart, k) else 0)
  {
    if cart != [] {
      var n := |cart| - 1;
      AddCartEffect(counter, client, cart[..n], k, x);
      HasCategoryStep(cart, k);
    }
  }

  /** The counter keeps its keys distinct. */
  lemma {:induction false} AddCartDistinct(counter: seq<(Client, nat)>, client: Client, cart: Cart, k: Category)
    requires Distinct(Firsts(counter))
    ensures Distinct(Firsts(AddCart(counter, client, cart, k)))
  {
    if cart != [] {
      var n := |cart| - 1;
      AddCartDistinct(counter, client, cart[..n], k);
      var before := AddCart(counter, client, cart[..n], k);
      if cart[n].0.category == k && client !in Firsts(before) {
        DistinctAppend(Firsts(before), client);
      }
    }
  }

  /** The counter of category k once every client's cart is added, client by client. */
  function ClientCounter(orders: Orders, k: Category): seq<(Client, nat)> {
    if orders == [] then []
    else
      var n := |orders| - 1;
      AddCart(ClientCounter(orders[..n], k), orders[n].0, orders[n].1, k)
  }

  lemma {:induction false} ClientCounterDistinct(orders: Orders, k: Category)
    ensures Distinct(Firsts(ClientCounter(orders, k)))
  {
    if orders != [] {
      var n := |orders| - 1;
      ClientCounterDistinct(orders[..n], k);
      AddCartDistinct(ClientCounter(orders[..n], k), orders[n].0, orders[n].1, k);
    }
  }

  /** The counter's keys are the clients with a product of category k in their cart. */
  lemma {:induction false} ClientCounterKeys(orders: Orders, k: Category, x: Client)
    ensures x in Firsts(ClientCounter(orders, k)) <==>
      exists i :: 0 <= i < |orders| && orders[i].0 == x && HasCategory(orders[i].1, k)
  {
    if orders != [] {
      var n := |orders| - 1;
      var init := orders[..n];
      ClientCounterKeys(init, k, x);
      AddCartEffect(ClientCounter(init, k), orders[n].0, orders[n].1, k, x);
      if exists i :: 0 <= i < |orders| && orders[i].0 == x && HasCategory(orders[i].1, k) {
        var i :| 0 <= i < |orders| && orders[i].0 == x && HasCategory(orders[i].1, k);
        if i < n {
          assert init[i] == orders[i];
        }
      }
      if exists i :: 0 <= i < |init| && init[i].0 == x && HasCategory(init[i].1, k) {
        var i :| 0 <= i < |init| && init[i].0 == x && HasCategory(init[i].1, k);
        assert init[i] == orders[i];
      }
    }
  }

  /** A client with a single entry counts its cart's quantity of category k. */
  lemma {:induction false} ClientCounterCount(orders: Orders, k: Category, i: nat)
    requires i < |orders|
    requires forall j :: 0 <= j < |orders| && orders[j].0 == orders[i].0 ==> j == i
    ensures CountIn(ClientCounter(orders, k), orders[i].0) == CategoryQuantity(orders[i].1, k)
  {
    var n := |orders| - 1;
    var init := orders[..n];
    var x := orders[i].0;
    AddCartEffect(ClientCounter(init, k), orders[n].0, orders[n].1, k, x);
    if i < n {
      assert init[i] == orders[i];
      forall j | 0 <= j < |init| && init[j].0 == x
        ensures j == i
      {
        assert init[j] == orders[j];
      }
      ClientCounterCount(init, k, i);
    } else {
      forall j | 0 <= j < |init|
        ensures Firsts(init)[j] != x
      {
        assert init[j] == orders[j];
      }
      ClientCounterAbsent(init, k, x);
    }
  }

  /** A client without an entry has no count. */
  lemma ClientCounterAbsent(orders: Orders, k: Category, x: Client)
    requires x !in Firsts(orders)
    ensures CountIn(ClientCounter(orders, k), x) == 0
  {
    ClientCounterKeys(orders, k, x);
    CountInOfAbsent(ClientCounter(orders, k), x);
  }

  /** The filled container: every category, in member order, with its counter. */
  function Counters(orders: Orders): (r: seq<(Category, seq<(Client, nat)>)>)
    ensures |r| == |AllCategories()|
  {
    seq(|AllCategories()|, e requires 0 <= e < |AllCategories()| =>
      (AllCategories()[e], ClientCounter(orders, AllCategories()[e])))
  }

  /** `categories_with_biggest_clients`: each category with the clients that bought the most
      items of it. */
  function BiggestClients(orders: Orders): seq<(Category, seq<Client>)> {
    MapValues(Counters(orders), TopKeys)
  }

  /** The entry for category k holds the top keys of k's counter. */
  lemma BiggestClientsOf(orders: Orders, k: Category)
    ensures Firsts(BiggestClients(orders)) == AllCategories()
    ensures Lookup(BiggestClients(orders), k) == Some(TopKeys(ClientCounter(orders, k)))
  {
    var counters := Counters(orders);
    var r := BiggestClients(orders);
    MapValuesKeys(counters, TopKeys);
    assert Firsts(counters) == AllCategories() by {
      forall e | 0 <= e < |counters|
        ensures Firsts(counters)[e] == AllCategories()[e]
      {
      }
    }
    var e := CategoryIndex(k);
    assert r[e] == (k, TopKeys(ClientCounter(orders, k)));
    LookupOfDistinct(r, e);
  }

  /** A category maps to [] exactly when no cart holds a product of it. */
  lemma BiggestClientsNone(orders: Orders, k: Category)
    ensures TopKeys(ClientCounter(orders, k)) == [] <==>
      forall i :: 0 <= i < |orders| ==> !HasCategory(orders[i].1, k)
  {
    var c := ClientCounter(orders, k);
    if c != [] {
      var x := c[0].0;
      assert Firsts(c)[0] == x;
      ClientCounterKeys(orders, k, x);
    }
    if exists i :: 0 <= i < |orders| && HasCategory(orders[i].1, k) {
      var i :| 0 <= i < |orders| && HasCategory(orders[i].1, k);
      ClientCounterKeys(orders, k, orders[i].0);
    }
  }

  /** With distinct clients, a client is among the biggest of category k exactly when its cart
      holds a product of k and no cart holds more items of k. */
  lemma BiggestClientsAreTop(orders: Orders, k: Category, i: nat)
    requires Distinct(Firsts(orders))
    requires i < |orders|
    ensures orders[i].0 in TopKeys(ClientCounter(orders, k)) <==>
      HasCategory(orders[i].1, k) &&
      forall j :: 0 <= j < |orders| && HasCategory(orders[j].1, k) ==>
        CategoryQuantity(orders[j].1, k) <= CategoryQuantity(orders[i].1, k)
  {
    var c := ClientCounter(orders, k);
    var x := orders[i].0;
    ClientCounterKeys(orders, k, x);
    DistinctKeyOnce(orders, i);
    OwnEntry(orders, i, k);
    if c == [] {
      assert !HasCategory(orders[i].1, k);
    } else {
      ClientCounterDistinct(orders, k);
      TopKeysAreMax(c, x);
      ClientCountsCompared(orders, k, i);
    }
  }

  /** For a client whose entry is its only one, some entry of it holds category k exactly when
      its own cart does. */
  lemma OwnEntry(orders: Orders, i: nat, k: Category)
    requires i < |orders|
    requires forall j :: 0 <= j < |orders| && orders[j].0 == orders[i].0 ==> j == i
    ensures (exists j :: 0 <= j < |orders| && orders[j].0 == orders[i].0 && HasCategory(orders[j].1, k)) <==>
      HasCategory(orders[i].1, k)
  {
  }

  /** Comparing counts is comparing the carts' quantities of k. */
  lemma ClientCountsCompared(orders: Orders, k: Category, i: nat)
    requires Distinct(Firsts(orders))
    requires i < |orders|
    ensures (forall x :: x in Firsts(ClientCounter(orders, k)) ==>
        CountIn(ClientCounter(orders, k), x) <= CountIn(ClientCounter(orders, k), orders[i].0)) <==>
      forall j :: 0 <= j < |orders| && HasCategory(orders[j].1, k) ==>
        CategoryQuantity(orders[j].1, k) <= CategoryQuantity(orders[i].1, k)
  {
    var c := ClientCounter(orders, k);
    DistinctKeyOnce(orders, i);
    ClientCounterCount(orders, k, i);
    forall j | 0 <= j < |orders|
      ensures CountIn(c, orders[j].0) == CategoryQuantity(orders[j].1, k)
      ensures HasCategory(orders[j].1, k) ==> orders[j].0 in Firsts(c)
    {
      DistinctKeyOnce(orders, j);
      ClientCounterCount(orders, k, j);
      ClientCounterKeys(orders, k, orders[j].0);
    }
    forall x | x in Firsts(c)
      ensures exists j :: 0 <= j < |orders| && orders[j].0 == x && HasCategory(orders[j].1, k)
    {
      ClientCounterKeys(orders, k, x);
    }
  }

  /** The container while one client's cart is being added: the carts of `done`, then the first
      products of this client's cart. */
  function PartialCounters(done: Orders, client: Client, part: Cart): (r: seq<(Category, seq<(Client, nat)>)>)
    ensures |r| == |AllCategories()|
  {
    seq(|AllCategories()|, e requires 0 <= e < |AllCategories()| =>
      (AllCategories()[e], AddCart(ClientCounter(done, AllCategories()[e]), client, part, AllCategories()[e])))
  }

  lemma PartialCountersStep(done: Orders, client: Client, cart: Cart, j: nat)
    requires j < |cart|
    ensures
      var before := PartialCounters(done, client, cart[..j]);
      var e := CategoryIndex(cart[j].0.category);
      PartialCounters(done, client, cart[..j + 1]) ==
        before[e := (cart[j].0.category, Add(before[e].1, client, cart[j].1))]
  {
    var before := PartialCounters(done, client, cart[..j]);
    var after := PartialCounters(done, client, cart[..j + 1]);
    var e := CategoryIndex(cart[j].0.category);
    forall e' | 0 <= e' < |AllCategories()|
      ensures after[e'] == before[e := (cart[j].0.category, Add(before[e].1, client, cart[j].1))][e']
    {
      AddCartStep(ClientCounter(done, AllCategories()[e']), client, cart, j, AllCategories()[e']);
    }
  }

  lemma PartialCountersDone(done: Orders, client: Client, cart: Cart)
    ensures PartialCounters(done, client, cart) == Counters(done + [(client, cart)])
    ensures PartialCounters(done, client, []) == Counters(done)
  {
    assert (done + [(client, cart)])[..|done|] == done;
  }

  /** `update_container_with_client_cart_data`: every product of the client's cart adds its
      quantity to the client's count in the counter of its category. */
  method UpdateWithCart(ghost done: Orders, container: seq<(Category, seq<(Client, nat)>)>, client: Client, cart: Cart)
    returns (r: seq<(Category, seq<(Client, nat)>)>)
    requires container == Counters(done)
    ensures r == Counters(done + [(client, cart)])
  {
    r := container;
    PartialCountersDone(done, client, cart);
    assert cart[..0] == [];
    var j := 0;
    while j < |cart|
      invariant 0 <= j <= |cart|
      invariant r == PartialCounters(done, client, cart[..j])
    {
      var product := cart[j].0;
      var e := CategoryIndex(product.category);
      PartialCountersStep(done, client, cart, j);
      r := r[e := (product.category, Add(r[e].1, client, cart[j].1))];
      j := j + 1;
    }
    assert cart[..j] == cart;
  }

  /** The arranging loop's body: `most_common()` cut after its leading group, [] for an empty
      counter. */
  method RankClients(counter: seq<(Client, nat)>) returns (top: seq<Client>)
    ensures top == TopKeys(counter)
  {
    var clients := MostCommon(counter);
    if clients == [] {
      return [];
    }
    var idx := GetNTopElementsOfMostCommonList(clients);
    FirstsOfPrefix(clients, idx.value);
    return Firsts(clients)[..idx.value];
  }

  /** `categories_with_biggest_clients`: a counter per category, filled client by client, then
      each replaced by its biggest clients. */
  method CategoriesWithBiggestClients(orders: Orders) returns (r: seq<(Category, seq<Client>)>)
    ensures r == BiggestClients(orders)
  {
    var container: seq<(Category, seq<(Client, nat)>)> := [];
    var e := 0;
    while e < |AllCategories()|
      invariant 0 <= e <= |AllCategories()|
      invariant container == Counters([])[..e]
    {
      container := container + [(AllCategories()[e], [])];
      e := e + 1;
    }
    var i := 0;
    while i < |orders|
      invariant 0 <= i <= |orders|
      invariant container == Counters(orders[..i])
    {
      assert orders[..i + 1] == orders[..i] + [orders[i]];
      container := UpdateWithCart(orders[..i], container, orders[i].0, orders[i].1);
      i := i + 1;
    }
    assert orders[..i] == orders;
    r := [];
    var k := 0;
    while k < |container|
      invariant 0 <= k <= |container|
      invariant r == MapValues(container[..k], TopKeys)
    {
      var top := RankClients(container[k].1);
      MapValuesStep(container, TopKeys, k, r, top);
      r := r + [(container[k].0, top)];
      k := k + 1;
    }
    assert container[..k] == container;
  }
}
