# ecommerce2 orders service — a Dafny model

ecommerce2 loads a list of orders from decoded JSON. Each entry pairs a client dictionary with a
list of product dictionaries. Every record is validated first. Only when all of them pass are
the clients and products built, and each client's cart is stored as a dictionary of product to
quantity. `OrdersService` then answers seven queries over that snapshot:

- the biggest spenders, overall and in one category;
- the most popular categories per client age;
- statistics per category (mean price, most expensive product, cheapest product);
- the clients who bought the most items of each category;
- each client's cart value;
- each client's balance after paying for the cart.

The "all winners tied at the top" answers rely on two helpers in `common.py`. One counts the
leading group of a `most_common()` list. The other cuts the leading run of equal values.

The model has seven modules, one per source file plus two shared ones:

| module | file | models |
|---|---|---|
| `Outcomes` | `outcomes.dfy` | the exceptions raised (`IndexError`, `TypeError`, `ValueError`, `KeyError`) and a `Result` type |
| `Common` | `common.dfy` | `common.py`: the two tie-break helpers as index loops proved against functions, and `is_dict_structure_correct` |
| `Ranking` | `ranking.dfy` | the Python behaviour the queries rely on: insertion-ordered dictionaries as sequences of pairs, a stable `sorted` (insertion sort), and `Counter` with `most_common()` |
| `Model` | `model.dfy` | `model.py`: `Category`, `Client` (all-field equality; hash on name and surname), `Product`, `cost_for_n`, `balance_after_spending`, and both `from_dict` constructors |
| `Validator` | `validator.dfy` | `validator.py`: the integer-range check, the enum-name check, and the assembly of the error dictionaries |
| `OrdersLoader` | `orders_loader.dfy` | `orders_loader.py`: the validation loop, then the build loop with its product counting |
| `Service` | `service.dfy` | `service.py`: the seven queries |

Every loop of the source is a `method` with a `while` loop. Each method is proved equal to a
specification function, and the lemmas state what those functions mean. A snapshot is a
sequence of `(Client, Cart)` pairs. A cart is a sequence of `(Product, quantity)` pairs.
Dictionary order is insertion order, and `ValidOrders` says the keys are distinct.

Points where the model follows the code rather than its intent:

- `validate_client_data` checks the surname with the name check (`_validate_name`). So the
  surname is matched against the client-name pattern, and its message says "Name".
  `_validate_surname` is modelled but never called.
- An empty cart makes two queries raise. `most_popular_categories_for_clients_ages` raises
  IndexError when every client of some age has an empty cart. `clients_balances_after_completing_orders`
  raises TypeError for any empty cart, because `sum([])` is the int 0. Both are modelled as
  error results, not as preconditions.
- `validate_integer_value` tests `if max_range:`, so a maximum of 0 disables the upper check.
- The most expensive and the cheapest "lists" of `categories_stats` always hold exactly one
  product. The helper compares products, not prices, and the products of a group are distinct.

## Model

| member | source | states |
|---|---|---|
| Common.TopCount | ecommerce2/common.py:40-46 | for a non-empty list: `1 <= n <= len`, the first n pairs share pair 0's count, and pair n differs from pair n-1 |
| Common.TopCountIsUnique | ecommerce2/common.py:40-46 | those three properties determine n |
| Common.TopCountOfUniformList | ecommerce2/common.py:41-46 | a list whose counts are all equal gives its length |
| Common.GetNTopElementsOfMostCommonList | ecommerce2/common.py:31-46 | IndexError on an empty list; otherwise the loop returns TopCount |
| Common.LeadingRun | ecommerce2/common.py:57-71 | a prefix, non-empty for non-empty input, all equal to the first element, and followed by a different element when shorter than the input |
| Common.LeadingRunIsUnique | ecommerce2/common.py:62-71 | those properties determine the run |
| Common.LeadingRunOfDistinct | ecommerce2/common.py:66-70 | pairwise distinct elements give a run of one element |
| Common.FirstElementsHavingSameValue | ecommerce2/common.py:48-71 | the early-return loop returns LeadingRun; [] for [] |
| Common.IsDictStructureCorrect | ecommerce2/common.py:96-100 | ValueError for an empty map before keys are compared; KeyError for another key set; otherwise true |
| Ranking.Lookup | ecommerce2/ecommerce_service/service.py:163 | `d[k]` on an insertion-ordered dictionary finds nothing exactly when k is not a key |
| Ranking.LookupOfDistinct | ecommerce2/ecommerce_service/service.py:163 | with distinct keys, each pair is found by its key |
| Ranking.LookupOfUnique | ecommerce2/ecommerce_service/service.py:163 | a pair whose key occurs nowhere else is found by it |
| Ranking.MapValues | ecommerce2/ecommerce_service/service.py:133 | the same keys in the same order, each value mapped |
| Ranking.MapValuesKeys | ecommerce2/ecommerce_service/service.py:133 | mapping the values keeps the keys |
| Ranking.Insert | ecommerce2/ecommerce_service/service.py:34-36 | one more element, and the multiset gains x |
| Ranking.InsertKeepsDescending | ecommerce2/ecommerce_service/service.py:34-36 | inserting into a descending sequence keeps it descending |
| Ranking.SortedDesc | ecommerce2/ecommerce_service/service.py:34-36 | `sorted(..., reverse=True)` is a permutation of its input |
| Ranking.SortedDescIsDescending | ecommerce2/ecommerce_service/service.py:34-36 | the result is descending by the key |
| Ranking.SortedAsc | ecommerce2/ecommerce_service/service.py:110 | the ascending sort is a permutation of its input |
| Ranking.InsertIsStable | ecommerce2/ecommerce_service/service.py:34-36 | insertion keeps each key's elements in order, with x first |
| Ranking.SortIsStable | ecommerce2/ecommerce_service/service.py:34-36 | the sort keeps the elements of every key in input order |
| Ranking.WithKeyMembers | ecommerce2/ecommerce_service/service.py:38 | the filter keeps exactly the elements whose key is v |
| Ranking.WithKeyOfAppend | ecommerce2/ecommerce_service/service.py:38 | the filter distributes over concatenation |
| Ranking.MaxKey | ecommerce2/ecommerce_service/service.py:34-38 | the largest key bounds every element and is attained |
| Ranking.SortedDescHead | ecommerce2/ecommerce_service/service.py:109 | the first element of the descending sort is an input element with the largest key |
| Ranking.SortedAscHead | ecommerce2/ecommerce_service/service.py:110 | the first element of the ascending sort is an input element with the smallest key |
| Ranking.LeadingGroupIsWithKey | ecommerce2/ecommerce_service/service.py:37-38 | in a descending sequence the leading group of equal keys is exactly the elements with the first key |
| Ranking.TopOfRanking | ecommerce2/ecommerce_service/service.py:34-38 | sorting descending and cutting at TopCount gives exactly the input pairs with the largest value, in input order |
| Ranking.Add | ecommerce2/ecommerce_service/service.py:123 | `c[k] += n` raises only k's count, by n, and appends k when it is new |
| Ranking.CountInOfDistinct | ecommerce2/ecommerce_service/service.py:123 | with distinct keys, a pair's count is the count of its key |
| Ranking.FirstOccurrences | ecommerce2/ecommerce_service/service.py:85 | the keys of `Counter(xs)`: distinct, and exactly the elements of xs |
| Ranking.Counts | ecommerce2/ecommerce_service/service.py:85 | `Counter(xs)` counts each key by its number of occurrences; the counts sum to `len(xs)` |
| Ranking.CountsArePositive | ecommerce2/loader/orders_loader.py:32-35 | every count of `Counter(xs)` is at least one |
| Ranking.MostCommon | ecommerce2/ecommerce_service/service.py:85 | `most_common()` is a permutation of the counter |
| Ranking.TopOfMostCommon | ecommerce2/ecommerce_service/service.py:85-87 | the leading group of `most_common()` is the pairs of largest count, in insertion order |
| Ranking.KeysWithCount | ecommerce2/ecommerce_service/service.py:85-87 | a key is among the pairs of count v exactly when its count is v |
| Ranking.MaxCountBounds | ecommerce2/ecommerce_service/service.py:85-87 | the largest count bounds every key's count |
| Ranking.TopKeys | ecommerce2/ecommerce_service/service.py:127-133 | the leading group's keys; empty exactly for an empty counter |
| Ranking.TopKeysHaveMaxCount | ecommerce2/ecommerce_service/service.py:127-133 | the top keys are the keys of largest count, in insertion order |
| Ranking.TopKeysAreMax | ecommerce2/ecommerce_service/service.py:127-133 | k is a top key exactly when it is a key and no count exceeds its count |
| Model.AllCategories | ecommerce2/ecommerce_service/model.py:42-44 | five distinct members, in declaration order |
| Model.AllCategoriesComplete | ecommerce2/ecommerce_service/model.py:42-44 | every member is listed |
| Model.CategoryIndex | ecommerce2/ecommerce_service/model.py:42-44 | each member's position in the declaration order |
| Model.CategoryName | ecommerce2/ecommerce_service/validator.py:70 | `.name` of a member; no contract of its own. CategoryNames and CategoryByNameOfName state that the five names are distinct and that `Category[c.name]` gives c back |
| Model.CategoryNames | ecommerce2/ecommerce_service/validator.py:70 | `[e.name for e in Category]` has five names, exactly the members' names |
| Model.CategoryByName | ecommerce2/ecommerce_service/model.py:74 | `Category[name]` succeeds exactly for a member name and gives that member; KeyError otherwise |
| Model.CategoryByNameOfName | ecommerce2/ecommerce_service/model.py:74 | looking a member up by its name gives it back |
| Model.ClientHashKey | ecommerce2/ecommerce_service/model.py:17-19 | the `(name, surname)` tuple `__hash__` hashes; no contract of its own. EqualClientsHashEqually and SameHashDifferentClients state that it agrees with equality but does not determine it |
| Model.EqualClientsHashEqually | ecommerce2/ecommerce_service/model.py:9-19 | equal clients hash equally |
| Model.SameHashDifferentClients | ecommerce2/ecommerce_service/model.py:9-19 | clients differing only in age hash alike but are different keys |
| Model.BalanceAfterSpending | ecommerce2/ecommerce_service/model.py:21-25 | balance minus the spend; negative exactly when the spend exceeds the balance, zero exactly when equal |
| Model.CostForN | ecommerce2/ecommerce_service/model.py:54-60 | ValueError exactly for a negative quantity; otherwise price × quantity, 0 for 0 |
| Model.CostForNIsAdditive | ecommerce2/ecommerce_service/model.py:54-60 | the cost is additive in the quantity |
| Model.ClientFromDict | ecommerce2/ecommerce_service/model.py:27-39 | ValueError unless the keys are exactly name, surname, age and balance; otherwise the client of those fields, its balance read as a decimal |
| Model.ProductFromDict | ecommerce2/ecommerce_service/model.py:62-76 | ValueError for another key set; KeyError for a category that names no member; otherwise the product with that member and the decimal price |
| Validator.ValidateUsingRegex | ecommerce2/ecommerce_service/validator.py:12-29 | no message exactly for a string the pattern matches; one "not formatted" message for a string it does not match; the type message for a non-string |
| Validator.ValidateIntegerValue | ecommerce2/ecommerce_service/validator.py:31-61 | ValueError exactly when a given maximum is below the minimum; TypeError exactly when the upper check compares a non-number; [] exactly when in range; one "not valid" message below the minimum or above an active maximum |
| Validator.ZeroMaximumIsNoMaximum | ecommerce2/ecommerce_service/validator.py:58-60 | a maximum of 0 behaves as no maximum |
| Validator.NoMaximumNeverRaises | ecommerce2/ecommerce_service/validator.py:50-61 | without a maximum nothing is raised, and any int at least the minimum is valid |
| Validator.ValidateNameExistence | ecommerce2/ecommerce_service/validator.py:63-72 | TypeError exactly for a non-string; [] exactly for a member name; otherwise the single "not defined" message |
| Validator.CategoryExistence | ecommerce2/ecommerce_service/validator.py:64-72 | each `Category` name is accepted, and any other string gets the single message |
| Validator.ValidateClientName | ecommerce2/ecommerce_service/validator.py:106-108 | [] exactly when the client-name pattern matches |
| Validator.ValidateClientSurname | ecommerce2/ecommerce_service/validator.py:110-112 | [] exactly when the surname pattern matches |
| Validator.ValidateAge | ecommerce2/ecommerce_service/validator.py:114-116 | [] exactly for an int of at least 18; no upper bound |
| Validator.ValidateBalance | ecommerce2/ecommerce_service/validator.py:118-120 | [] exactly when the balance pattern matches |
| Validator.ClientDataErrors | ecommerce2/ecommerce_service/validator.py:87-104 | KeyError exactly when one of the four fields is missing |
| Validator.ClientFieldErrors | ecommerce2/ecommerce_service/validator.py:94-104 | the messages of one client field's check; no contract of its own. ClientDataErrorsEntries states that the error dictionary holds exactly its non-empty results, and SurnameCheckedAsName that the surname goes through the name check |
| Validator.ClientDataErrorsEntries | ecommerce2/ecommerce_service/validator.py:94-104 | a key exactly for each field whose check gave messages, mapped to those messages |
| Validator.ValidateClientData | ecommerce2/ecommerce_service/validator.py:87-104 | the statement sequence returns ClientDataErrors |
| Validator.ClientDataErrorsAre | ecommerce2/ecommerce_service/validator.py:94-104 | that key set and those values determine the dictionary |
| Validator.SurnameCheckedAsName | ecommerce2/ecommerce_service/validator.py:97-98 | the surname goes through the name check, and a failure is worded "Name" |
| Validator.ValidClientDataIsTyped | ecommerce2/ecommerce_service/validator.py:94-104 | an empty dictionary means the field types `from_dict` assumes, and an age of at least 18 |
| Validator.ValidateProductName | ecommerce2/ecommerce_service/validator.py:150-152 | [] exactly when the product-name pattern matches |
| Validator.ValidateCategory | ecommerce2/ecommerce_service/validator.py:154-159 | the pattern's messages alone when it fails; otherwise [] exactly for a member name, else the "not defined" message |
| Validator.ValidatePrice | ecommerce2/ecommerce_service/validator.py:161-165 | [] exactly when the price pattern matches |
| Validator.ProductDataErrors | ecommerce2/ecommerce_service/validator.py:133-148 | KeyError exactly when one of the three fields is missing |
| Validator.ProductFieldErrors | ecommerce2/ecommerce_service/validator.py:140-148 | the messages of one product field's check; no contract of its own. ProductDataErrorsEntries states that the error dictionary holds exactly its non-empty results |
| Validator.ProductDataErrorsEntries | ecommerce2/ecommerce_service/validator.py:140-148 | a key exactly for each field whose check gave messages, mapped to those messages |
| Validator.ValidateProductData | ecommerce2/ecommerce_service/validator.py:133-148 | the statement sequence returns ProductDataErrors |
| Validator.ProductDataErrorsAre | ecommerce2/ecommerce_service/validator.py:140-148 | that key set and those values determine the dictionary |
| Validator.ValidProductDataIsTyped | ecommerce2/ecommerce_service/validator.py:140-148 | an empty dictionary means the field types `from_dict` assumes, and a category that names a member |
| OrdersLoader.SomeProductInvalid | ecommerce2/loader/orders_loader.py:22 | a missing product field raises KeyError |
| OrdersLoader.SomeProductInvalidMeaning | ecommerce2/loader/orders_loader.py:22 | KeyError exactly when some product dictionary lacks a field; otherwise true exactly when some dictionary has messages |
| OrdersLoader.SomeInvalidProduct | ecommerce2/loader/orders_loader.py:22 | the comprehension's loop returns SomeProductInvalid |
| OrdersLoader.EntryInvalid | ecommerce2/loader/orders_loader.py:21-23 | one turn of the validation loop fails only with KeyError; ValidationPasses and InvalidEntryFault state how its answers decide the loop |
| OrdersLoader.ValidationFault | ecommerce2/loader/orders_loader.py:19-26 | a fault is a KeyError or the ValueError re-raised for the loop's TypeError |
| OrdersLoader.ValidationPasses | ecommerce2/loader/orders_loader.py:19-26 | validation passes exactly when every entry passes |
| OrdersLoader.ValidateAll | ecommerce2/loader/orders_loader.py:19-26 | the validation loop returns ValidationFault |
| OrdersLoader.InvalidEntryFault | ecommerce2/loader/orders_loader.py:19-26 | the first failing record, with nothing missing, gives ValueError |
| OrdersLoader.InvalidEntryRejected | ecommerce2/loader/orders_loader.py:19-26 | in that case the call raises ValueError and builds no orders |
| OrdersLoader.ValidEntryIsTyped | ecommerce2/loader/orders_loader.py:21-23 | a passing entry has the field types both `from_dict` constructors assume |
| OrdersLoader.ValidatedEntriesAreTyped | ecommerce2/loader/orders_loader.py:19-30 | after validation passes, every entry is typed |
| OrdersLoader.ProductsFromDicts | ecommerce2/loader/orders_loader.py:31 | a fault is ValueError or KeyError |
| OrdersLoader.ProductsFromDictsMeaning | ecommerce2/loader/orders_loader.py:31 | it succeeds exactly when every dictionary builds, giving one product per dictionary, in order |
| OrdersLoader.ProductsFromDictsLoop | ecommerce2/loader/orders_loader.py:31 | the comprehension's loop returns ProductsFromDicts |
| OrdersLoader.CountProducts | ecommerce2/loader/orders_loader.py:32-34 | the `defaultdict(int)` loop returns `Counter` of the products |
| OrdersLoader.Put | ecommerce2/loader/orders_loader.py:35 | the keys stay the same, or gain the client at the end |
| OrdersLoader.PutLookup | ecommerce2/loader/orders_loader.py:35 | afterwards the client's cart is the new one and every other client's is unchanged |
| OrdersLoader.PutEntries | ecommerce2/loader/orders_loader.py:35 | every entry afterwards is an old entry or the new one |
| OrdersLoader.BuildOrders | ecommerce2/loader/orders_loader.py:28-37 | a build fault is ValueError or KeyError |
| OrdersLoader.BuildAll | ecommerce2/loader/orders_loader.py:28-37 | the build loop returns BuildOrders |
| OrdersLoader.BuildEntry | ecommerce2/loader/orders_loader.py:29-35 | one turn of the build loop extends the snapshot as BuildOrders does |
| OrdersLoader.BuildEntriesOk | ecommerce2/loader/orders_loader.py:29-35 | a successful build built every entry's client and products |
| OrdersLoader.BuildKeyOfEntry | ecommerce2/loader/orders_loader.py:28-35 | every entry's client is a key |
| OrdersLoader.BuildKeyHasEntry | ecommerce2/loader/orders_loader.py:28-35 | every key is the client of some entry |
| OrdersLoader.BuildIsValid | ecommerce2/loader/orders_loader.py:28-35 | the snapshot has distinct clients and distinct products per cart |
| OrdersLoader.BuildLastEntryWins | ecommerce2/loader/orders_loader.py:35 | a client's cart is the count of its last entry's products |
| OrdersLoader.Load | ecommerce2/loader/orders_loader.py:19-37 | a fault is KeyError or ValueError |
| OrdersLoader.LoadFrom | ecommerce2/loader/orders_loader.py:12-37 | `load_from` returns Load |
| OrdersLoader.LoadedSnapshot | ecommerce2/loader/orders_loader.py:28-37 | a loaded snapshot is valid and its keys are exactly the entries' clients |
| OrdersLoader.LoadedCart | ecommerce2/loader/orders_loader.py:31-35 | each product's quantity in the cart is its number of occurrences in the last entry; every quantity is at least 1; the quantities sum to the length of `client_orders` |
| Service.CartValue | ecommerce2/ecommerce_service/service.py:26 | the sum of `cost_for_n` over a cart (also service.py:151); no contract of its own. CategorySpendsAddUp, CategorySpendBounds, SpendPairs and BalancesMeaning state its properties |
| Service.CategorySpend | ecommerce2/ecommerce_service/service.py:54-55 | the same sum over the products of one category; no contract of its own. CategorySpendsAddUp and CategorySpendBounds state that the five category spends add up to the cart value and each lies between 0 and it |
| Service.CategorySpendsAddUp | ecommerce2/ecommerce_service/service.py:48-56 | a cart's value is the sum of its five category spends |
| Service.CategorySpendBounds | ecommerce2/ecommerce_service/service.py:48-56 | with non-negative prices, a category spend lies between 0 and the cart's value |
| Service.SpendPairs | ecommerce2/ecommerce_service/service.py:29-32 | one pair per client, in order, holding its cart's value |
| Service.CategorySpendPairs | ecommerce2/ecommerce_service/service.py:58-61 | one pair per client, in order, holding its spend in the category |
| Service.SpendPairsKeys | ecommerce2/ecommerce_service/service.py:29-32 | the pairs have the snapshot's clients as keys |
| Service.ClientsWithSpend | ecommerce2/ecommerce_service/service.py:38 | with distinct clients, a client is among the pairs of spend v exactly when its own spend is v |
| Service.MaxSpend | ecommerce2/ecommerce_service/service.py:34-38 | the largest spend bounds every client's spend and is attained |
| Service.BiggestSpenders | ecommerce2/ecommerce_service/service.py:22-38 | the answer of `client_with_biggest_spend`: [] for an empty snapshot, else sort, count and cut; no contract of its own. BiggestSpendersAreTop and BiggestSpendersMembership state that it is exactly the clients of largest spend, in order |
| Service.BiggestSpendersAreTop | ecommerce2/ecommerce_service/service.py:34-38 | the result is the clients of largest spend, in the snapshot's order |
| Service.BiggestSpendersMembership | ecommerce2/ecommerce_service/service.py:18-38 | a client is returned exactly when no client spends more |
| Service.ClientWithBiggestSpend | ecommerce2/ecommerce_service/service.py:18-38 | the method returns BiggestSpenders, and [] for an empty snapshot |
| Service.MaxCategorySpend | ecommerce2/ecommerce_service/service.py:63-70 | the largest spend in the category bounds every client's and is attained |
| Service.BiggestSpendersInCategory | ecommerce2/ecommerce_service/service.py:45-70 | the answer of `client_with_biggest_spend_in_category`, with the zero test of service.py:67-68; no contract of its own. BiggestSpendersInCategoryAreTop and BiggestSpendersInCategoryMembership state what it holds |
| Service.BiggestSpendersInCategoryAreTop | ecommerce2/ecommerce_service/service.py:63-70 | [] exactly when the top spend is 0; otherwise the clients with that top spend, in order |
| Service.BiggestSpendersInCategoryMembership | ecommerce2/ecommerce_service/service.py:40-70 | with a non-zero top spend, a client is returned exactly when its spend in the category is the largest |
| Service.ClientWithBiggestSpendInCategory | ecommerce2/ecommerce_service/service.py:40-70 | the method returns BiggestSpendersInCategory |
| Service.ClientsWithCartsValue | ecommerce2/ecommerce_service/service.py:147-153 | one entry per client, in order, holding its cart's value |
| Service.Balances | ecommerce2/ecommerce_service/service.py:155-165 | a fault is TypeError |
| Service.BalancesMeaning | ecommerce2/ecommerce_service/service.py:155-165 | TypeError exactly when some cart is empty; otherwise one entry per client, in order, holding balance minus cart value |
| Service.BalancesStep | ecommerce2/ecommerce_service/service.py:162-163 | one turn of the loop appends the client's balance, or fails on an empty cart |
| Service.SpentOf | ecommerce2/ecommerce_service/service.py:160-163 | with distinct clients, `clients_with_spend[client]` is the value of that client's cart |
| Service.ValidOrdersHaveDistinctClients | ecommerce2/ecommerce_service/service.py:16 | a valid snapshot has no client twice |
| Service.ClientsBalancesAfterCompletingOrders | ecommerce2/ecommerce_service/service.py:155-165 | the method returns Balances |
| Service.CategoriesOf | ecommerce2/ecommerce_service/service.py:80 | one category per distinct product of the cart, in order |
| Service.Extend | ecommerce2/ecommerce_service/service.py:80 | `pools[age].extend(xs)` extends only that age's list, opening it at the end when new |
| Service.AgePools | ecommerce2/ecommerce_service/service.py:77-82 | the `defaultdict(list)` the first loop builds; no contract of its own. AgePoolsDistinct, AgePoolsKeys and AgePoolsLookup state its keys and that each pool is PoolOf, defined independently |
| Service.AgePoolsDistinct | ecommerce2/ecommerce_service/service.py:77-82 | each age is a key once |
| Service.AgePoolsKeys | ecommerce2/ecommerce_service/service.py:77-82 | the keys are exactly the clients' ages |
| Service.AgePoolsLookup | ecommerce2/ecommerce_service/service.py:77-82 | an age's list is the concatenation of its clients' categories, in snapshot order |
| Service.AgePoolOfEntry | ecommerce2/ecommerce_service/service.py:77-82 | each entry holds its age's pool, and its age is some client's |
| Service.PoolOfEmpty | ecommerce2/ecommerce_service/service.py:79-80 | a pool is empty exactly when every client of that age has an empty cart |
| Service.AgePoolsIgnoreQuantities | ecommerce2/ecommerce_service/service.py:79-80 | quantities play no part in the pools |
| Service.TopCategories | ecommerce2/ecommerce_service/service.py:85-87 | empty exactly for an empty pool |
| Service.TopCategoriesAreMostFrequent | ecommerce2/ecommerce_service/service.py:85-87 | a category is listed exactly when it occurs in the pool and no category occurs more often; order is first occurrence |
| Service.TopPerAge | ecommerce2/ecommerce_service/service.py:83-88 | IndexError exactly when some pool is empty |
| Service.MostPopularByAge | ecommerce2/ecommerce_service/service.py:77-89 | the answer of `most_popular_categories_for_clients_ages`; no contract of its own. MostPopularByAgeMeaning, MostPopularByAgeKeys and MostPopularByAgeFails state its keys, its lists and when it is IndexError |
| Service.MostPopularByAgeMeaning | ecommerce2/ecommerce_service/service.py:72-89 | each entry's age is some client's, and its list is the most frequent categories of that age's pool |
| Service.MostPopularByAgeKeys | ecommerce2/ecommerce_service/service.py:72-89 | the keys are exactly the clients' ages, each once |
| Service.MostPopularByAgeFails | ecommerce2/ecommerce_service/service.py:84-86 | IndexError exactly when every client of some age has an empty cart |
| Service.RankCategories | ecommerce2/ecommerce_service/service.py:85-87 | IndexError for an empty pool; otherwise TopCategories |
| Service.RankPools | ecommerce2/ecommerce_service/service.py:83-89 | the ranking loop returns TopPerAge |
| Service.MostPopularCategoriesForClientsAges | ecommerce2/ecommerce_service/service.py:72-89 | the method returns MostPopularByAge |
| Service.SetAdd | ecommerce2/ecommerce_service/service.py:102 | `s.add(p)` adds exactly p and keeps the elements distinct |
| Service.AddToGroup | ecommerce2/ecommerce_service/service.py:102 | a product of a new category opens a group at the end |
| Service.AddToGroupLookup | ecommerce2/ecommerce_service/service.py:102 | only the product's own group changes, and it gains the product |
| Service.BoughtProductsMembers | ecommerce2/ecommerce_service/service.py:100-101 | a product is visited exactly when it is in some cart |
| Service.GroupProducts | ecommerce2/ecommerce_service/service.py:99-102 | the `defaultdict(set)` of the nested loop; no contract of its own. GroupsDistinct, GroupsKeys, GroupsMembers and GroupMember state its keys and its groups |
| Service.GroupsDistinct | ecommerce2/ecommerce_service/service.py:99-102 | each category is a key once |
| Service.GroupsKeys | ecommerce2/ecommerce_service/service.py:99-102 | the keys are exactly the categories of the visited products |
| Service.GroupsMembers | ecommerce2/ecommerce_service/service.py:99-102 | a category's group holds each of its products once, and nothing else |
| Service.GroupNonEmpty | ecommerce2/ecommerce_service/service.py:99-106 | every group is a non-empty set |
| Service.GroupMember | ecommerce2/ecommerce_service/service.py:99-106 | a group holds exactly the visited products of its category |
| Service.StatsOf | ecommerce2/ecommerce_service/service.py:107-111 | one category's statistics; no contract of its own. StatsExtremes, StatsMean and StatsDescribe state that they describe the group's prices |
| Service.StatsExtremes | ecommerce2/ecommerce_service/service.py:109-110 | for distinct products, each extreme list holds exactly one product of the group, of largest and of smallest price |
| Service.StatsMean | ecommerce2/ecommerce_service/service.py:108 | the mean times the group's size is its total price |
| Service.StatsDescribe | ecommerce2/ecommerce_service/service.py:107-111 | a group's statistics describe its prices |
| Service.StatsGuardIsRedundant | ecommerce2/ecommerce_service/service.py:96-97 | the empty-snapshot guard returns what the loops would |
| Service.CategoriesStats | ecommerce2/ecommerce_service/service.py:91-112 | the answer of `categories_stats`; no contract of its own. CategoriesStatsKeys, CategoriesStatsGroup and CategoriesStatsEntry state its keys, its groups and their statistics |
| Service.CategoriesStatsKeys | ecommerce2/ecommerce_service/service.py:91-112 | one entry for each category of a bought product, each once |
| Service.CategoriesStatsAt | ecommerce2/ecommerce_service/service.py:105-111 | each entry pairs a group with its statistics |
| Service.CategoriesStatsGroup | ecommerce2/ecommerce_service/service.py:99-106 | each entry's group is the non-empty set of distinct bought products of its category |
| Service.CategoriesStatsEntry | ecommerce2/ecommerce_service/service.py:105-111 | each entry's statistics describe the prices of that set |
| Service.GroupStats | ecommerce2/ecommerce_service/service.py:106-111 | the loop body returns StatsOf |
| Service.GroupCart | ecommerce2/ecommerce_service/service.py:101-102 | the inner loop adds a cart's products to the groups |
| Service.CategoriesStatsOf | ecommerce2/ecommerce_service/service.py:91-112 | the method returns CategoriesStats |
| Service.AddCart | ecommerce2/ecommerce_service/service.py:121-123 | one cart added to one category's counter; no contract of its own. AddCartEffect and AddCartDistinct state which key it touches and by how much |
| Service.AddCartEffect | ecommerce2/ecommerce_service/service.py:121-123 | adding a cart makes the client a key exactly when the cart holds the category, and raises only its count, by the cart's quantity of the category |
| Service.AddCartDistinct | ecommerce2/ecommerce_service/service.py:121-123 | the counter keeps distinct keys |
| Service.ClientCounter | ecommerce2/ecommerce_service/service.py:135-141 | one category's counter once every cart is added; no contract of its own. ClientCounterDistinct, ClientCounterKeys, ClientCounterCount and ClientCounterAbsent state its keys and counts |
| Service.ClientCounterDistinct | ecommerce2/ecommerce_service/service.py:140-141 | each category's counter has distinct keys |
| Service.ClientCounterKeys | ecommerce2/ecommerce_service/service.py:140-141 | its keys are exactly the clients whose cart holds the category |
| Service.ClientCounterCount | ecommerce2/ecommerce_service/service.py:140-141 | a client with one entry counts its cart's quantity of the category |
| Service.ClientCounterAbsent | ecommerce2/ecommerce_service/service.py:140-141 | a client without an entry counts 0 |
| Service.Counters | ecommerce2/ecommerce_service/service.py:135-141 | one counter per category |
| Service.BiggestClients | ecommerce2/ecommerce_service/service.py:135-145 | the answer of `categories_with_biggest_clients`; no contract of its own. BiggestClientsOf, BiggestClientsNone and BiggestClientsAreTop state its keys and lists |
| Service.BiggestClientsOf | ecommerce2/ecommerce_service/service.py:114-145 | the keys are all five categories in member order, and each holds the top keys of its counter |
| Service.BiggestClientsNone | ecommerce2/ecommerce_service/service.py:128-130 | a category maps to [] exactly when no cart holds it |
| Service.BiggestClientsAreTop | ecommerce2/ecommerce_service/service.py:125-133 | with distinct clients, a client is listed exactly when its cart holds the category and no cart holds more items of it |
| Service.ClientCountsCompared | ecommerce2/ecommerce_service/service.py:125-133 | comparing counts is comparing the carts' quantities of the category |
| Service.UpdateWithCart | ecommerce2/ecommerce_service/service.py:121-123 | the nested helper adds one client's cart to the counters |
| Service.RankClients | ecommerce2/ecommerce_service/service.py:127-133 | the arranging loop's body returns TopKeys |
| Service.CategoriesWithBiggestClients | ecommerce2/ecommerce_service/service.py:114-145 | the method returns BiggestClients |

## Left out

- Regular-expression semantics are not modelled. The match is a parameter (`Matcher`), the patterns are a parameter (`Patterns`), and `matches_regex` and `settings.py` are not part of this model.
- `Decimal(str)` parsing is not modelled. The balance and price strings are read through a parameter `decimal: string -> real`.
- Money is an exact `real`. The Decimal context's rounding of the division in `price_mean` is not modelled.
- The `isinstance` TypeError branches on arguments of the wrong static type are not modelled, because Dafny's types rule those arguments out. The checks on decoded values of any type are modelled (`Raw`).
- A `bool` passed where an `int` is expected is not modelled; the decoded values have no separate boolean case.
- `json_loader.py` (file input and `json.load`) is not part of this model.
- `from_dict` overwrites the caller's dictionary entries before constructing the value. The model builds the value without changing its input.
- Python `set` iteration order in `categories_stats` is taken to be insertion order. Python gives no such order, so the order of the statistics' groups is a modelling choice.
- Quantities in a snapshot are `nat`. A negative quantity would make `cost_for_n` raise inside the queries; that path is ruled out by the type.
- The outer `KeyError` of `load_from` when an entry lacks `client` or `client_orders` is not modelled. `OrderData` always has both.
- OrdersLoader.Load: records of the wrong shape are not modelled, because the field types of `OrderData` rule them out. These are an entry, a `client` or a product that is not a dictionary, and a `client_orders` that is not a list. In the source, subscripting or iterating such a record raises TypeError, which `load_from` turns into ValueError. A `client_orders` of `""` passes validation and loads as an empty cart.
- Messages are a datatype, not formatted strings. The error dictionaries are Dafny maps, so their key order is not modelled.
- Service.StatsOf: gives a mean of 0.0 for an empty group, where Python would divide by zero. Groups are never empty (`GroupNonEmpty`), so this case is unreachable from `categories_stats`.
- OrdersLoader.LoadedCart: also requires `EntriesTyped(data)`. That follows from a successful load (`LoadedSnapshot`) and is listed only so the later-entries condition can be stated.
- Service.ClientsBalancesAfterCompletingOrders: requires distinct clients (`DistinctClients`). Python dictionary keys are always distinct, and `ValidOrdersHaveDistinctClients` gives it for any valid snapshot.
- Service.BiggestSpendersMembership, Service.BiggestSpendersInCategoryMembership, Service.BiggestClientsAreTop: these are stated for snapshots with distinct clients, which a Python dictionary always has.
- Service.CategoriesWithBiggestClients: the counters and the ranked lists are two sequences. The source overwrites each counter in place with its list; the result is the same.
