/**
  The lookup service: the root information record, the two listings, and the
  case-insensitive, first-match lookups by name over each catalogue list.

  Every operation is a function of its input and the constant catalogue, so
  no operation can change either list.
 */
module Service {
  import opened Lowercase
  import opened Catalog

  /** What a lookup by name returns: the record, or the not-found marker and its message. */
  datatype Response = Found(item: Item) | NotFound(error: string)

  /** What the root path returns: a greeting and the map of endpoint names to paths. */
  datatype RootInfo = RootInfo(message: string, endpoints: map<string, string>)

  const FruitNotFound: string := "Fruit not found"
  const VegetableNotFound: string := "Vegetable not found"

  /** The lookup's test: the lowered name equals the lowered query. Only `name` is compared. */
  predicate NameMatches(item: Item, query: string) {
    Lower(item.name) == Lower(query)
  }

  /** No entry of `items` matches `query`. */
  predicate NoMatch(items: seq<Item>, query: string) {
    forall j :: 0 <= j < |items| ==> !NameMatches(items[j], query)
  }

  /** Position `i` holds a match and no earlier position does. */
  ghost predicate IsFirstMatch(items: seq<Item>, query: string, i: int) {
    && 0 <= i < |items|
    && NameMatches(items[i], query)
    && forall j :: 0 <= j < i ==> !NameMatches(items[j], query)
  }

  /**
    The position of the element that `next` draws from the generator
    `(x for x in items if x.name.lower() == query.lower())`: the scan stops at
    the first match, and yields nothing when no element matches.
   */
  function FirstMatch(items: seq<Item>, query: string): (r: Option<nat>)
    ensures r.Some? ==> IsFirstMatch(items, query, r.value)
    ensures r.None? <==> NoMatch(items, query)
  {
    if items == [] then None
    else if NameMatches(items[0], query) then Some(0)
    else match FirstMatch(items[1..], query)
      case None => None
      case Some(k) => Some(k + 1)
  }

  /**
    A lookup by name over one list: the first matching record, or the
    not-found marker carrying `message`.
   */
  function Find(items: seq<Item>, query: string, message: string): (r: Response)
    ensures r.NotFound? <==> NoMatch(items, query)
    ensures r.NotFound? ==> r.error == message
    ensures r.Found? ==> r.item in items && NameMatches(r.item, query)
    ensures forall i :: IsFirstMatch(items, query, i) ==> r == Found(items[i])
  {
    match FirstMatch(items, query)
    case None => NotFound(message)
    case Some(i) => Found(items[i])
  }

  /** Two queries with the same lower-case form get the same answer. */
  lemma {:induction false} FirstMatchCaseInsensitive(items: seq<Item>, q1: string, q2: string)
    requires Lower(q1) == Lower(q2)
    ensures FirstMatch(items, q1) == FirstMatch(items, q2)
  {
    if items != [] {
      FirstMatchCaseInsensitive(items[1..], q1, q2);
    }
  }

  lemma FindCaseInsensitive(items: seq<Item>, q1: string, q2: string, message: string)
    requires Lower(q1) == Lower(q2)
    ensures Find(items, q1, message) == Find(items, q2, message)
  {
    FirstMatchCaseInsensitive(items, q1, q2);
  }

  /**
    The lookup reads `name` and nothing else: two lists with the same names in
    the same order, whatever their other fields hold, match at the same position.
   */
  lemma {:induction false} FirstMatchReadsNamesOnly(items: seq<Item>, others: seq<Item>, query: string)
    requires |items| == |others|
    requires forall i :: 0 <= i < |items| ==> items[i].name == others[i].name
    ensures FirstMatch(items, query) == FirstMatch(others, query)
  {
    if items != [] {
      FirstMatchReadsNamesOnly(items[1..], others[1..], query);
    }
  }

  /**
    In a list whose names are distinct up to case, looking up an entry's own
    name, in any letter case, returns that entry.
   */
  lemma FindOwnName(items: seq<Item>, i: int, query: string, message: string)
    requires DistinctNames(items)
    requires 0 <= i < |items|
    requires Lower(query) == Lower(items[i].name)
    ensures Find(items, query, message) == Found(items[i])
  {
    assert IsFirstMatch(items, query, i);
  }

  /** `GET /`: a fixed greeting and the fixed map of endpoints. */
  function Root(): (r: RootInfo)
    ensures r.endpoints.Keys == {"fruits", "vegetables", "docs"}
    ensures forall name :: name in r.endpoints ==> r.endpoints[name] == "/" + name
  {
    RootInfo("Welcome to the Fruits and Vegetables API",
      map["fruits" := "/fruits", "vegetables" := "/vegetables", "docs" := "/docs"])
  }

  /** `GET /fruits`: the whole fruit list, in catalogue order, with its size. */
  function GetFruits(): (r: ItemList)
    ensures r.Valid() && r.items == Fruits && r.count == 10
  {
    ItemList(Fruits, |Fruits|)
  }

  /** `GET /vegetables`: the whole vegetable list, in catalogue order, with its size. */
  function GetVegetables(): (r: ItemList)
    ensures r.Valid() && r.items == Vegetables && r.count == 20
  {
    ItemList(Vegetables, |Vegetables|)
  }

  /**
    `GET /fruits/{name}`: the fruit whose name equals `name` up to case, or
    the marker "Fruit not found" when there is none.
   */
  function GetFruitByName(name: string): (r: Response)
    ensures r.NotFound? <==> NoMatch(Fruits, name)
    ensures r.NotFound? ==> r.error == "Fruit not found"
    ensures forall i :: 0 <= i < |Fruits| && NameMatches(Fruits[i], name) ==> r == Found(Fruits[i])
  {
    FruitsDistinct();
    Find(Fruits, name, FruitNotFound)
  }

  /**
    `GET /vegetables/{name}`: the vegetable whose name equals `name` up to
    case, or the marker "Vegetable not found" when there is none.
   */
  function GetVegetableByName(name: string): (r: Response)
    ensures r.NotFound? <==> NoMatch(Vegetables, name)
    ensures r.NotFound? ==> r.error == "Vegetable not found"
    ensures forall i :: 0 <= i < |Vegetables| && NameMatches(Vegetables[i], name) ==> r == Found(Vegetables[i])
  {
    VegetablesDistinct();
    Find(Vegetables, name, VegetableNotFound)
  }

  /** A query whose length no name in `items` has matches nothing there. */
  lemma NoMatchByLength(items: seq<Item>, query: string)
    requires forall j :: 0 <= j < |items| ==> |items[j].name| != |query|
    ensures NoMatch(items, query)
  {
  }

  /** "Apple", "apple" and "APPLE" all return the Apple record. */
  lemma AppleInAnyCase()
    ensures GetFruitByName("Apple") == Found(Item("Apple", Some("Seb"), Some("Malus domestica")))
    ensures GetFruitByName("apple") == GetFruitByName("Apple")
    ensures GetFruitByName("APPLE") == GetFruitByName("Apple")
  {
    var apple := Fruits[0];
    assert apple == Item("Apple", Some("Seb"), Some("Malus domestica"));
    assert NameMatches(apple, "Apple");
    assert NameMatches(apple, "apple");
    assert NameMatches(apple, "APPLE");
  }

  /** No fruit is called "Kiwi". */
  lemma KiwiNotFound()
    ensures GetFruitByName("Kiwi") == NotFound("Fruit not found")
  {
    FruitSignatures();
    NoMatchByLength(Fruits, "Kiwi");
  }

  /**
    "Lauki" is the local name of "Bottle Gourd", but local names are never
    compared, so the lookup reports not-found.
   */
  lemma LaukiNotFound()
    ensures Vegetables[0].localName == Some("Lauki")
    ensures GetVegetableByName("Lauki") == NotFound("Vegetable not found")
  {
    VegetableSignatures();
    NoMatchByLength(Vegetables, "Lauki");
  }

  /** The Bottle Gourd record is found by its own name, in any letter case. */
  lemma BottleGourdByName()
    ensures GetVegetableByName("bottle gourd") == Found(Item("Bottle Gourd", Some("Lauki"), Some("Lagenaria siceraria")))
    ensures GetVegetableByName("BOTTLE GOURD") == GetVegetableByName("bottle gourd")
  {
    var gourd := Vegetables[0];
    assert gourd == Item("Bottle Gourd", Some("Lauki"), Some("Lagenaria siceraria"));
    assert NameMatches(gourd, "bottle gourd");
    assert NameMatches(gourd, "BOTTLE GOURD");
  }
}
