/**
  The static catalogue: the record shapes the service returns and its two fixed,
  ordered lists (ten fruits, twenty vegetables). The lists are constants; nothing
  in the service ever assigns to them.
 */
module Catalog {
  import opened Lowercase

  datatype Option<T> = None | Some(value: T)

  /** One catalogue record. `localName` and `scientificName` are optional. */
  datatype Item = Item(name: string, localName: Option<string>, scientificName: Option<string>)

  /** The listing envelope: the items and how many there are. */
  datatype ItemList = ItemList(items: seq<Item>, count: int) {
    /** The envelope is consistent when `count` is the number of items. */
    predicate Valid() {
      count == |items|
    }
  }

  const Fruits: seq<Item> := [
    Item("Apple", Some("Seb"), Some("Malus domestica")),
    Item("Banana", Some("Kela"), Some("Musa acuminata")),
    Item("Orange", Some("Santra"), Some("Citrus × sinensis")),
    Item("Mango", Some("Aam"), Some("Mangifera indica")),
    Item("Guava", Some("Amrood"), Some("Psidium guajava")),
    Item("Papaya", Some("Papita"), Some("Carica papaya")),
    Item("Pomegranate", Some("Anar"), Some("Punica granatum")),
    Item("Grapes", Some("Angoor"), Some("Vitis vinifera")),
    Item("Watermelon", Some("Tarbooz"), Some("Citrullus lanatus")),
    Item("Pineapple", Some("Ananas"), Some("Ananas comosus"))
  ]

  const Vegetables: seq<Item> := [
    Item("Bottle Gourd", Some("Lauki"), Some("Lagenaria siceraria")),
    Item("Ridge Gourd", Some("Turai"), Some("Luffa acutangula")),
    Item("Bitter Gourd", Some("Karela"), Some("Momordica charantia")),
    Item("Snake Gourd", Some("Chichinda"), Some("Trichosanthes cucumerina")),
    Item("Pointed Gourd", Some("Parwal"), Some("Trichosanthes dioica")),
    Item("Ash Gourd", Some("Petha"), Some("Benincasa hispida")),
    Item("Indian Okra", Some("Bhindi"), Some("Abelmoschus esculentus")),
    Item("Drumstick", Some("Moringa"), Some("Moringa oleifera")),
    Item("Indian Spinach", Some("Palak"), Some("Spinacia oleracea")),
    Item("Fenugreek Leaves", Some("Methi"), Some("Trigonella foenum-graecum")),
    Item("Mustard Greens", Some("Sarson"), Some("Brassica juncea")),
    Item("Amaranth", Some("Chaulai"), Some("Amaranthus viridis")),
    Item("Indian Eggplant", Some("Baingan"), Some("Solanum melongena")),
    Item("Cluster Beans", Some("Gwar"), Some("Cyamopsis tetragonoloba")),
    Item("Taro Root", Some("Arvi"), Some("Colocasia esculenta")),
    Item("Yam", Some("Jimikand"), Some("Dioscorea alata")),
    Item("Sweet Potato", Some("Shakarkand"), Some("Ipomoea batatas")),
    Item("Indian Turnip", Some("Shalgam"), Some("Brassica rapa")),
    Item("Water Chestnut", Some("Singhara"), Some("Trapa natans")),
    Item("Lotus Root", Some("Kamal Kakdi"), Some("Nelumbo nucifera"))
  ]

  /** No two entries of a list have the same name once lowered. */
  predicate DistinctNames(items: seq<Item>) {
    forall i, j :: 0 <= i < j < |items| ==> Lower(items[i].name) != Lower(items[j].name)
  }

  /** The signatures of a list's names, in list order. */
  function Signatures(items: seq<Item>): (r: seq<(int, char, char)>)
    ensures |r| == |items|
    ensures forall i :: 0 <= i < |items| ==> r[i] == Signature(items[i].name)
  {
    seq(|items|, i requires 0 <= i < |items| => Signature(items[i].name))
  }

  /** No value occurs twice in `s`. */
  predicate NoDuplicates<T(==)>(s: seq<T>) {
    forall i, j :: 0 <= i < j < |s| ==> s[i] != s[j]
  }

  /** Names whose signatures are pairwise distinct are distinct once lowered. */
  lemma DistinctBySignature(items: seq<Item>)
    requires NoDuplicates(Signatures(items))
    ensures DistinctNames(items)
  {
    var sigs := Signatures(items);
    forall i, j | 0 <= i < j < |items|
      ensures Lower(items[i].name) != Lower(items[j].name)
    {
      assert sigs[i] != sigs[j];
      DifferentSignatureDifferentLower(items[i].name, items[j].name);
    }
  }

  /** The signatures of the fruits' names (length and first two letters, lowered), in list order. */
  const FruitSignatureTable: seq<(int, char, char)> := [
    (5, 'a', 'p'),
    (6, 'b', 'a'),
    (6, 'o', 'r'),
    (5, 'm', 'a'),
    (5, 'g', 'u'),
    (6, 'p', 'a'),
    (11, 'p', 'o'),
    (6, 'g', 'r'),
    (10, 'w', 'a'),
    (9, 'p', 'i')
  ]

  /** A step of `FruitsDistinct`: the table above is the signature of each name. */
  lemma FruitSignatures()
    ensures Signatures(Fruits) == FruitSignatureTable
  {
  }

  /** A step of `FruitsDistinct`: no two entries of the table coincide. */
  lemma FruitSignaturesDistinct()
    ensures NoDuplicates(FruitSignatureTable)
  {
  }

  /** No two fruits share a name up to letter case, and no name is empty. */
  lemma FruitsDistinct()
    ensures DistinctNames(Fruits)
    ensures forall i :: 0 <= i < |Fruits| ==> Fruits[i].name != []
  {
    FruitSignatures();
    FruitSignaturesDistinct();
    DistinctBySignature(Fruits);
  }

  /** The signatures of the vegetables' names (length and first two letters, lowered), in list order. */
  const VegetableSignatureTable: seq<(int, char, char)> := [
    (12, 'b', 'o'),
    (11, 'r', 'i'),
    (12, 'b', 'i'),
    (11, 's', 'n'),
    (13, 'p', 'o'),
    (9, 'a', 's'),
    (11, 'i', 'n'),
    (9, 'd', 'r'),
    (14, 'i', 'n'),
    (16, 'f', 'e'),
    (14, 'm', 'u'),
    (8, 'a', 'm'),
    (15, 'i', 'n'),
    (13, 'c', 'l'),
    (9, 't', 'a'),
    (3, 'y', 'a'),
    (12, 's', 'w'),
    (13, 'i', 'n'),
    (14, 'w', 'a'),
    (10, 'l', 'o')
  ]

  /** A step of `VegetablesDistinct`: the table above is the signature of each name. */
  lemma VegetableSignatures()
    ensures Signatures(Vegetables) == VegetableSignatureTable
  {
  }

  /** A step of `VegetablesDistinct`: no two entries of the table coincide. */
  lemma VegetableSignaturesDistinct()
    ensures NoDuplicates(VegetableSignatureTable)
  {
  }

  /** No two vegetables share a name up to letter case, and no name is empty. */
  lemma VegetablesDistinct()
    ensures DistinctNames(Vegetables)
    ensures forall i :: 0 <= i < |Vegetables| ==> Vegetables[i].name != []
  {
    VegetableSignatures();
    VegetableSignaturesDistinct();
    DistinctBySignature(Vegetables);
  }
}
