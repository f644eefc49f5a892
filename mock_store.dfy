/** The browser-storage product and user store used when no backend is configured. The two
    storage slots (products and the signed-in user) are fields of a `Store`; every product
    operation reads the current list, with the seed list standing in for an empty slot, and
    overwrites the slot with a new list. Ids and timestamps are supplied by the caller. */
module MockStore {
  import opened Wrappers
  import opened Text
  import opened Seqs
  import opened Catalog
  import opened Recommendations

  // The seed texts, named so that the listings below stay readable.
  const LaptopName: string := "HP EliteBook 840 G5 - Core i7"
  const LaptopDescription: string := "Perfect for students. 16GB RAM, 512GB SSD. Very clean and well maintained. Battery lasts 4+ hours."
  const LaptopImage: string := "https://images.unsplash.com/photo-1496181133206-80ce9b88a853?auto=format&fit=crop&q=80&w=800"
  const DeskName: string := "Study Desk & Swivel Chair"
  const DeskDescription: string := "Selling as I am moving out. Very sturdy wooden desk and a comfortable adjustable chair."
  const DeskImage: string := "https://images.unsplash.com/photo-1518455027359-f3f816b1a22a?auto=format&fit=crop&q=80&w=800"
  const BikeName: string := "Mountain Bike - 21 Speed"
  const BikeDescription: string := "Great for commuting around campus. New tires recently fitted. Smooth shifting."
  const BikeImage: string := "https://images.unsplash.com/photo-1485965120184-e220f721d03e?auto=format&fit=crop&q=80&w=800"
  const TvName: string := "Samsung 32\" LED Smart TV"
  const TvDescription: string := "Slightly used, works perfectly. YouTube and Netflix pre-installed."
  const TvImage: string := "https://images.unsplash.com/photo-1593359677879-a4bb92f829d1?auto=format&fit=crop&q=80&w=800"

  /** The four seed listings; `loadedAt` is the creation time they all receive. */
  function InitialProducts(loadedAt: string): (ps: seq<Product>)
    ensures |ps| == 4
    ensures forall i :: 0 <= i < |ps| ==> ps[i].createdAt == loadedAt && ps[i].status == Available
  {
    [ Product("1", LaptopName, 45000, Electronics, Used, Available, 2,
              "Egerton Main Campus",
              LaptopDescription,
              [LaptopImage],
              loadedAt, Some("1 year"), Some(true), "254712345678"),
      Product("2", DeskName, 8500, Furniture, Used, Available, 1,
              "Njoro Town",
              DeskDescription,
              [DeskImage],
              loadedAt, Some("6 months"), Some(true), "254722334455"),
      Product("3", BikeName, 12000, Other, Used, Available, 1,
              "Egerton Gate",
              BikeDescription,
              [BikeImage],
              loadedAt, Some("2 years"), Some(true), "254733445566"),
      Product("4", TvName, 15500, Electronics, Used, Available, 1,
              "Nakuru CBD",
              TvDescription,
              [TvImage],
              loadedAt, None, None, "254700000000") ]
  }

  /** The seed listings have distinct ids, are in stock, and each has a picture. */
  lemma InitialProductsWellFormed(loadedAt: string)
    ensures NoDupIds(InitialProducts(loadedAt))
    ensures forall i :: 0 <= i < 4 ==>
      InitialProducts(loadedAt)[i].stock >= 1 && |InitialProducts(loadedAt)[i].images| == 1
  {
    var ps := InitialProducts(loadedAt);
    assert ps[0].id == "1" && ps[1].id == "2" && ps[2].id == "3" && ps[3].id == "4";
  }

  // ---------------------------------------------------------------------------
  // The list operations

  /** `products.map(p => p.id === updated.id ? updated : p)`. */
  function ReplaceById(ps: seq<Product>, updated: Product): (r: seq<Product>)
    ensures |r| == |ps|
    ensures forall i :: 0 <= i < |ps| ==> r[i] == (if ps[i].id == updated.id then updated else ps[i])
  {
    seq(|ps|, i requires 0 <= i < |ps| => if ps[i].id == updated.id then updated else ps[i])
  }

  /** The filter test of a deletion. */
  function IdIsNot(id: string): Product -> bool {
    (p: Product) => p.id != id
  }

  /** `products.filter(p => p.id !== id)`. */
  function RemoveById(ps: seq<Product>, id: string): seq<Product> {
    Filter(ps, IdIsNot(id))
  }

  /** A deletion removes every entry with the id, keeps every other entry, and keeps their order. */
  lemma RemoveByIdSpec(ps: seq<Product>, id: string)
    ensures var r := RemoveById(ps, id);
      && !HasId(r, id)
      && (forall i :: 0 <= i < |ps| && ps[i].id != id ==> ps[i] in r)
      && (forall i :: 0 <= i < |r| ==> r[i] in ps)
      && IsSubseq(r, ps)
  {
    var r := RemoveById(ps, id);
    forall i | 0 <= i < |r| ensures r[i].id != id {
      assert IdIsNot(id)(r[i]);
    }
  }

  /** Deleting an id that is not in the list leaves the list unchanged. */
  lemma RemoveAbsent(ps: seq<Product>, id: string)
    requires !HasId(ps, id)
    ensures RemoveById(ps, id) == ps
  {
    FilterAll(ps, IdIsNot(id));
  }

  /** Deleting twice is deleting once. */
  lemma RemoveIdempotent(ps: seq<Product>, id: string)
    ensures RemoveById(RemoveById(ps, id), id) == RemoveById(ps, id)
  {
    RemoveByIdSpec(ps, id);
    RemoveAbsent(RemoveById(ps, id), id);
  }

  /** Replacing an entry that is not in the list leaves the list unchanged. */
  lemma ReplaceAbsent(ps: seq<Product>, updated: Product)
    requires !HasId(ps, updated.id)
    ensures ReplaceById(ps, updated) == ps
  {
  }

  /** After an update, the updated record is what a lookup of its id finds, when the id was present. */
  lemma ReplaceThenFind(ps: seq<Product>, updated: Product)
    requires HasId(ps, updated.id)
    ensures FindById(ReplaceById(ps, updated), updated.id) == Some(updated)
  {
    var r := ReplaceById(ps, updated);
    var k := FindIndex(r, updated.id).value;
    assert r[k] == updated;
  }

  /** Updating twice with the same record is updating once. */
  lemma ReplaceIdempotent(ps: seq<Product>, updated: Product)
    ensures ReplaceById(ReplaceById(ps, updated), updated) == ReplaceById(ps, updated)
  {
  }

  /** Deleting an id undoes every update of that id. */
  lemma {:induction false} RemoveAfterReplace(ps: seq<Product>, updated: Product)
    ensures RemoveById(ReplaceById(ps, updated), updated.id) == RemoveById(ps, updated.id)
  {
    if ps != [] {
      var r := ReplaceById(ps, updated);
      RemoveAfterReplace(ps[1..], updated);
      assert r[1..] == ReplaceById(ps[1..], updated);
      assert r[0].id == updated.id <==> ps[0].id == updated.id;
      if ps[0].id != updated.id {
        assert r[0] == ps[0];
      }
    }
  }

  /** The user that a mock sign-in produces: an admin exactly when the address mentions "admin". */
  function MockUser(email: string): (u: User)
    ensures u.email == email && u.id == "u1"
    ensures u.role == "admin" <==> Contains(email, "admin")
    ensures u.role == "user" <==> !Contains(email, "admin")
    ensures u.isApproved <==> Contains(email, "admin")
    ensures u.avatar == Some(AvatarFor(email)) && u.username.None? && u.preferredCategories == Some([])
  {
    var admin := Contains(email, "admin");
    User("u1", email, None, if admin then "admin" else "user", admin, Some(AvatarFor(email)), Some([]))
  }

  /** Any address containing "admin" signs in as an approved administrator. */
  lemma AdminAddressIsAdmin(local: string, domain: string)
    ensures MockUser(local + "admin" + domain).role == "admin"
    ensures MockUser(local + "admin" + domain).isApproved
  {
    var e := local + "admin" + domain;
    assert e[|local|..|local| + 5] == "admin";
    ContainsAt(e, "admin", |local|);
  }

  // ---------------------------------------------------------------------------
  // The store

  class Store {
    /** The products slot; `None` when nothing has been stored yet. */
    var productsSlot: Option<seq<Product>>
    /** The signed-in user slot. */
    var userSlot: Option<User>
    /** The seed list, whose timestamps were fixed when the module was loaded. */
    const initialProducts: seq<Product>

    /** The list the product operations start from. */
    function Current(): seq<Product>
      reads this
    {
      productsSlot.GetOr(initialProducts)
    }

    /** A store over whatever the slots already hold. */
    constructor(loadedAt: string, storedProducts: Option<seq<Product>>, storedUser: Option<User>)
      ensures initialProducts == InitialProducts(loadedAt)
      ensures productsSlot == storedProducts && userSlot == storedUser
    {
      initialProducts := InitialProducts(loadedAt);
      productsSlot := storedProducts;
      userSlot := storedUser;
    }

    /** An empty slot is seeded with the initial list, which is returned; a stored list is
        returned as it is. Either way the slot then holds the returned list. */
    method GetStoredProducts() returns (products: seq<Product>)
      modifies this
      ensures old(productsSlot).None? ==> products == initialProducts
      ensures old(productsSlot).Some? ==> products == old(productsSlot).value
      ensures productsSlot == Some(products) && userSlot == old(userSlot)
    {
      match productsSlot
      case None =>
        productsSlot := Some(initialProducts);
        products := initialProducts;
      case Some(stored) =>
        products := stored;
    }

    /** A new listing goes first, with the given id and creation time; the others follow in
        their previous order. */
    method AddProduct(draft: ProductDraft, id: string, createdAt: string) returns (newProduct: Product)
      modifies this
      ensures DraftOf(newProduct) == draft && newProduct.id == id && newProduct.createdAt == createdAt
      ensures productsSlot == Some([newProduct] + old(Current()))
      ensures |productsSlot.value| == |old(Current())| + 1 && productsSlot.value[1..] == old(Current())
      ensures userSlot == old(userSlot)
    {
      var products := GetStoredProducts();
      newProduct := WithIdentity(draft, id, createdAt);
      var updated := [newProduct] + products;
      productsSlot := Some(updated);
    }

    /** Every entry with the updated record's id is replaced by it; nothing else changes. */
    method UpdateProduct(updatedProduct: Product)
      modifies this
      ensures productsSlot == Some(ReplaceById(old(Current()), updatedProduct))
      ensures userSlot == old(userSlot)
    {
      var products := GetStoredProducts();
      var updated := ReplaceById(products, updatedProduct);
      productsSlot := Some(updated);
    }

    /** Every entry with the id is removed; the rest keep their order. */
    method DeleteProduct(id: string)
      modifies this
      ensures productsSlot == Some(RemoveById(old(Current()), id))
      ensures userSlot == old(userSlot)
    {
      var products := GetStoredProducts();
      var updated := RemoveById(products, id);
      productsSlot := Some(updated);
    }

    method GetActiveUser() returns (user: Option<User>)
      ensures user == userSlot
    {
      user := userSlot;
    }

    /** Signs in with any password; the user is stored and returned. */
    method LoginMock(email: string, password: string) returns (user: User)
      modifies this
      ensures user == MockUser(email)
      ensures userSlot == Some(user) && productsSlot == old(productsSlot)
    {
      user := MockUser(email);
      userSlot := Some(user);
    }

    /** After signing out there is no active user. */
    method LogoutMock()
      modifies this
      ensures userSlot.None? && productsSlot == old(productsSlot)
    {
      userSlot := None;
    }
  }
}
