/** The marketplace records: products, their enumerations, and users. */
module Catalog {
  import opened Wrappers

  datatype Condition = New | Used
  datatype Category = Electronics | Furniture | Vehicles | Clothing | Other
  datatype Status = Available | SoldOut

  /** The string value each category carries at run time. */
  function CategoryName(c: Category): string {
    match c
    case Electronics => "Electronics"
    case Furniture => "Furniture"
    case Vehicles => "Vehicles"
    case Clothing => "Clothing"
    case Other => "Other"
  }

  /** A listing. Prices and stock counts are whole numbers here. */
  datatype Product = Product(
    id: string,
    name: string,
    price: int,
    category: Category,
    condition: Condition,
    status: Status,
    stock: int,
    location: string,
    description: string,
    images: seq<string>,
    createdAt: string,
    timeSincePurchase: Option<string>,
    isFeatured: Option<bool>,
    sellerPhone: string)

  /** A listing before the store assigns it an id and a creation time
      (a product without `id` and `createdAt`). */
  datatype ProductDraft = ProductDraft(
    name: string,
    price: int,
    category: Category,
    condition: Condition,
    status: Status,
    stock: int,
    location: string,
    description: string,
    images: seq<string>,
    timeSincePurchase: Option<string>,
    isFeatured: Option<bool>,
    sellerPhone: string)

  /** A product without its store-assigned fields. */
  function DraftOf(p: Product): ProductDraft {
    ProductDraft(p.name, p.price, p.category, p.condition, p.status, p.stock, p.location,
                 p.description, p.images, p.timeSincePurchase, p.isFeatured, p.sellerPhone)
  }

  /** A draft completed with an id and a creation time (`{...draft, id, createdAt}`). */
  function WithIdentity(d: ProductDraft, id: string, createdAt: string): (p: Product)
    ensures DraftOf(p) == d
    ensures p.id == id && p.createdAt == createdAt
  {
    Product(id, d.name, d.price, d.category, d.condition, d.status, d.stock, d.location,
            d.description, d.images, createdAt, d.timeSincePurchase, d.isFeatured, d.sellerPhone)
  }

  /** Splitting a product into its draft and identity and joining them again gives it back. */
  lemma IdentityRoundTrip(p: Product)
    ensures WithIdentity(DraftOf(p), p.id, p.createdAt) == p
  {
  }

  /** A signed-in user; `role` is "admin" or "user". */
  datatype User = User(
    id: string,
    email: string,
    username: Option<string>,
    role: string,
    isApproved: bool,
    avatar: Option<string>,
    preferredCategories: Option<seq<Category>>)

  /** The generated avatar picture for a name. */
  function AvatarFor(name: string): string {
    "https://ui-avatars.com/api/?name=" + name + "&background=059669&color=fff"
  }
}
