/** The records of the product recommender and the catalog it starts from. */
module Catalog {

  datatype Option<T> = None | Some(value: T)

  /** One catalog entry. Only `id`, `category` and `rating` take part in ranking;
      the rest is display data carried through unchanged. */
  datatype Product = Product(
    id: int,
    name: string,
    category: string,
    price: real,
    rating: real,
    description: string,
    image: string)

  /** One entry of the user's preference list: a category and its weight. */
  datatype UserPreference = UserPreference(category: string, weight: real)

  /** No two catalog entries share an id. */
  predicate UniqueIds(products: seq<Product>) {
    forall i, j :: 0 <= i < j < |products| ==> products[i].id != products[j].id
  }

  /** Position of the first catalog entry with the given id, or |products| when there is none. */
  function FindIndex(products: seq<Product>, id: int): (k: nat)
    ensures k <= |products|
    ensures forall j :: 0 <= j < k ==> products[j].id != id
    ensures k < |products| ==> products[k].id == id
  {
    if products == [] then 0
    else if products[0].id == id then 0
    else 1 + FindIndex(products[1..], id)
  }

  /** `products.find(p => p.id === id)`: the first catalog entry with that id, if any. */
  function Find(products: seq<Product>, id: int): (r: Option<Product>)
    ensures r.None? <==> forall j :: 0 <= j < |products| ==> products[j].id != id
    ensures r.Some? ==> r.value in products && r.value.id == id
    ensures UniqueIds(products) ==> forall j :: 0 <= j < |products| && products[j].id == id ==> r == Some(products[j])
  {
    var k := FindIndex(products, id);
    if k < |products| then Some(products[k]) else None
  }

  /** The catalog the component is created with. */
  const InitialProducts: seq<Product> := [
    Product(1, "Wireless Bluetooth Headphones", "Electronics", 99.99, 4.5,
            "High-quality wireless headphones with noise cancellation", "\U{1F3A7}"),
    Product(2, "Yoga Mat", "Fitness", 29.99, 4.2,
            "Non-slip yoga mat for all types of yoga practice", "\U{1F9D8}"),
    Product(3, "Coffee Maker", "Kitchen", 149.99, 4.7,
            "Programmable coffee maker with thermal carafe", "\U{2615}"),
    Product(4, "Smart Watch", "Electronics", 299.99, 4.4,
            "Fitness tracking smartwatch with heart rate monitor", "\U{231A}"),
    Product(5, "Running Shoes", "Fitness", 89.99, 4.3,
            "Lightweight running shoes with excellent cushioning", "\U{1F45F}"),
    Product(6, "Blender", "Kitchen", 79.99, 4.1,
            "High-speed blender perfect for smoothies and soups", "\U{1F964}"),
    Product(7, "Laptop Stand", "Electronics", 39.99, 4.6,
            "Adjustable laptop stand for better ergonomics", "\U{1F4BB}"),
    Product(8, "Resistance Bands", "Fitness", 24.99, 4.0,
            "Set of resistance bands for strength training", "\U{1F4AA}")
  ]

  /** The preference list the component is created with. */
  const InitialPreferences: seq<UserPreference> := [
    UserPreference("Electronics", 0.3),
    UserPreference("Fitness", 0.4),
    UserPreference("Kitchen", 0.3)
  ]

  /** The initial catalog lists ids 1 to 8 in order. */
  lemma InitialIds()
    ensures |InitialProducts| == 8
    ensures forall i :: 0 <= i < |InitialProducts| ==> InitialProducts[i].id == i + 1
  {
  }
}
