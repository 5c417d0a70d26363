/** The value objects of the service: clients, products and their category, the raw decoded
    values they are built from, and the orders snapshot. */
module Model {
  import opened Outcomes
  import opened Common
  import opened Ranking

  // ---------------------------------------------------------------------------
  // Category
  // ---------------------------------------------------------------------------

  datatype Category = HOME | ELECTRONICS | KITCHEN | RTV | AGD

  /** The members in declaration order, the order in which `for c in Category` visits them. */
  function AllCategories(): (r: seq<Category>)
    ensures |r| == 5
    ensures Distinct(r)
  {
    [HOME, ELECTRONICS, KITCHEN, RTV, AGD]
  }

  /** Every member is listed. */
  lemma AllCategoriesComplete(c: Category)
    ensures c in AllCategories()
  {
    match c
    case HOME =>
    case ELECTRONICS =>
    case KITCHEN =>
    case RTV =>
    case AGD =>
  }

  /** The position of a member in AllCategories. */
  function CategoryIndex(c: Category): (i: nat)
    ensures i < |AllCategories()| && AllCategories()[i] == c
  {
    match c
    case HOME => 0
    case ELECTRONICS => 1
    case KITCHEN => 2
    case RTV => 3
    case AGD => 4
  }

  function CategoryName(c: Category): string {
    match c
    case HOME => "HOME"
    case ELECTRONICS => "ELECTRONICS"
    case KITCHEN => "KITCHEN"
    case RTV => "RTV"
    case AGD => "AGD"
  }

  /** `[e.name for e in Category]` */
  function CategoryNames(): (r: seq<string>)
    ensures |r| == 5
    ensures forall c: Category :: CategoryName(c) in r
    ensures forall name :: name in r ==> exists c: Category :: CategoryName(c) == name
  {
    assert CategoryName(HOME) == "HOME" && CategoryName(ELECTRONICS) == "ELECTRONICS";
    assert CategoryName(KITCHEN) == "KITCHEN" && CategoryName(RTV) == "RTV" && CategoryName(AGD) == "AGD";
    ["HOME", "ELECTRONICS", "KITCHEN", "RTV", "AGD"]
  }

  /** `Category[name]`: the member called `name`; KeyError for any other string. */
  function CategoryByName(name: string): (r: Result<Category>)
    ensures r.Ok? <==> name in CategoryNames()
    ensures r.Ok? ==> CategoryName(r.value) == name
    ensures r.Err? ==> r.error == KeyError
  {
    if name == "HOME" then Ok(HOME)
    else if name == "ELECTRONICS" then Ok(ELECTRONICS)
    else if name == "KITCHEN" then Ok(KITCHEN)
    else if name == "RTV" then Ok(RTV)
    else if name == "AGD" then Ok(AGD)
    else Err(KeyError)
  }

  /** Looking a member up by its own name gives that member back. */
  lemma CategoryByNameOfName(c: Category)
    ensures CategoryByName(CategoryName(c)) == Ok(c)
  {
  }

  // ---------------------------------------------------------------------------
  // Client
  // ---------------------------------------------------------------------------

  /** A frozen dataclass: equality compares all four fields. */
  datatype Client = Client(name: string, surname: string, age: int, balance: real)

  /** The tuple `__hash__` hashes: name and surname only. */
  function ClientHashKey(c: Client): (string, string) {
    (c.name, c.surname)
  }

  /** The hash is consistent with equality: equal clients hash equally. */
  lemma EqualClientsHashEqually(a: Client, b: Client)
    requires a == b
    ensures ClientHashKey(a) == ClientHashKey(b)
  {
  }

  /** The hash does not decide equality: two clients who differ only in age are different
      dictionary keys that hash alike. */
  lemma SameHashDifferentClients(a: Client, b: Client)
    requires a.name == b.name && a.surname == b.surname && a.balance == b.balance
    requires a.age != b.age
    ensures ClientHashKey(a) == ClientHashKey(b) && a != b
  {
  }

  /** The balance left after spending `spentValue`; it may be zero or negative. */
  function BalanceAfterSpending(c: Client, spentValue: real): (r: real)
    ensures r + spentValue == c.balance
    ensures r < 0.0 <==> spentValue > c.balance
    ensures r == 0.0 <==> spentValue == c.balance
  {
    c.balance - spentValue
  }

  // ---------------------------------------------------------------------------
  // Product
  // ---------------------------------------------------------------------------

  /** A frozen dataclass: equality and hash use all three fields. */
  datatype Product = Product(name: string, category: Category, price: real)

  /** The cost of `quantity` items; a negative quantity raises ValueError. */
  function CostForN(p: Product, quantity: int): (r: Result<real>)
    ensures r.Err? <==> quantity < 0
    ensures r.Err? ==> r.error == ValueError
    ensures quantity == 0 ==> r == Ok(0.0)
    ensures quantity >= 0 ==> r == Ok(p.price * quantity as real)
  {
    if quantity < 0 then Err(ValueError) else Ok(p.price * quantity as real)
  }

  /** The cost is additive in the quantity. */
  lemma CostForNIsAdditive(p: Product, a: nat, b: nat)
    ensures CostForN(p, a + b).value == CostForN(p, a).value + CostForN(p, b).value
  {
    assert p.price * (a + b) as real == p.price * a as real + p.price * b as real;
  }

  // ---------------------------------------------------------------------------
  // Construction from decoded dictionaries
  // ---------------------------------------------------------------------------

  /** A value of a decoded JSON dictionary: a string, an int, another number (float or Decimal)
      or any other Python object, with the name of its type. */
  datatype Raw = RawStr(s: string) | RawInt(i: int) | RawNum(x: real, numType: string) | RawOther(otherType: string)

  /** The name Python's `type()` gives the value. */
  function TypeName(v: Raw): string {
    match v
    case RawStr(_) => "str"
    case RawInt(_) => "int"
    case RawNum(_, t) => t
    case RawOther(t) => t
  }

  function ClientKeys(): set<string> {
    {"name", "surname", "age", "balance"}
  }

  function ProductKeys(): set<string> {
    {"name", "category", "price"}
  }

  /** The constructor's stated assumption: a dictionary with the right keys holds values of the
      types the validator admits. */
  predicate ClientDataTyped(data: map<string, Raw>) {
    data.Keys == ClientKeys() ==>
      data["name"].RawStr? && data["surname"].RawStr? && data["age"].RawInt? && data["balance"].RawStr?
  }

  predicate ProductDataTyped(data: map<string, Raw>) {
    data.Keys == ProductKeys() ==>
      data["name"].RawStr? && data["category"].RawStr? && data["price"].RawStr?
  }

  /** `Client.from_dict`: any structural fault (empty dict, other key set) becomes ValueError;
      otherwise the client of those fields, the balance read as a decimal. */
  function ClientFromDict(data: map<string, Raw>, decimal: string -> real): (r: Result<Client>)
    requires ClientDataTyped(data)
    ensures r.Ok? <==> data.Keys == ClientKeys()
    ensures r.Err? ==> r.error == ValueError
    ensures r.Ok? ==> r.value.name == data["name"].s && r.value.surname == data["surname"].s
    ensures r.Ok? ==> r.value.age == data["age"].i && r.value.balance == decimal(data["balance"].s)
  {
    match IsDictStructureCorrect(data, ClientKeys())
    case Err(_) => Err(ValueError)
    case Ok(_) => Ok(Client(data["name"].s, data["surname"].s, data["age"].i, decimal(data["balance"].s)))
  }

  /** `Product.from_dict`: a structural fault becomes ValueError; a category string that names no
      member raises KeyError; otherwise the product, its price read as a decimal. */
  function ProductFromDict(data: map<string, Raw>, decimal: string -> real): (r: Result<Product>)
    requires ProductDataTyped(data)
    ensures data.Keys != ProductKeys() ==> r == Err(ValueError)
    ensures data.Keys == ProductKeys() ==> (r.Ok? <==> data["category"].s in CategoryNames())
    ensures r.Err? && data.Keys == ProductKeys() ==> r.error == KeyError
    ensures r.Ok? ==> r.value.name == data["name"].s && CategoryName(r.value.category) == data["category"].s
    ensures r.Ok? ==> r.value.price == decimal(data["price"].s)
  {
    match IsDictStructureCorrect(data, ProductKeys())
    case Err(_) => Err(ValueError)
    case Ok(_) =>
      match CategoryByName(data["category"].s)
      case Err(e) => Err(e)
      case Ok(category) => Ok(Product(data["name"].s, category, decimal(data["price"].s)))
  }

  // ---------------------------------------------------------------------------
  // The orders snapshot: dict[Client, dict[Product, int]]
  // ---------------------------------------------------------------------------

  /** A client's cart, in the dictionary's insertion order. */
  type Cart = seq<(Product, nat)>

  /** The snapshot, in the dictionary's insertion order. */
  type Orders = seq<(Client, Cart)>

  /** Dictionary keys are distinct. */
  predicate ValidOrders(orders: Orders) {
    && Distinct(Firsts(orders))
    && forall i :: 0 <= i < |orders| ==> Distinct(Firsts(orders[i].1))
  }
}
