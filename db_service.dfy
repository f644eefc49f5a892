/** The hosted-database adapter, without the network: translation between database rows
    (snake_case columns) and products, the partial-update patch, and the decisions taken around
    each query. Query results are inputs. */
module DbService {
  import opened Wrappers
  import opened Catalog

  /** A row of the products table as the adapter reads it; `images` may be null. */
  datatype ProductRow = ProductRow(
    id: string,
    name: string,
    price: int,
    category: Category,
    condition: Condition,
    status: Status,
    stock: int,
    location: string,
    description: string,
    images: Option<seq<string>>,
    created_at: string,
    seller_phone: string)

  /** The columns written when a listing is inserted. */
  datatype InsertRow = InsertRow(
    name: string,
    price: int,
    category: Category,
    condition: Condition,
    status: Status,
    stock: int,
    location: string,
    description: string,
    images: seq<string>,
    seller_phone: string)

  /** Row to product: the two snake_case columns are renamed, null images become the empty list,
      and the two optional product fields, which have no column, are left undefined. */
  function MapProduct(row: ProductRow): (p: Product)
    ensures p.id == row.id && p.createdAt == row.created_at && p.sellerPhone == row.seller_phone
    ensures p.images == row.images.GetOr([])
    ensures p.timeSincePurchase.None? && p.isFeatured.None?
    ensures p.name == row.name && p.price == row.price && p.stock == row.stock
    ensures p.category == row.category && p.condition == row.condition && p.status == row.status
    ensures p.location == row.location && p.description == row.description
  {
    Product(row.id, row.name, row.price, row.category, row.condition, row.status, row.stock,
            row.location, row.description, row.images.GetOr([]), row.created_at, None, None,
            row.seller_phone)
  }

  /** Listing to insert row: no id and no creation time, and the seller's phone under its column
      name. */
  function MapToSupabase(d: ProductDraft): (row: InsertRow)
    ensures row.seller_phone == d.sellerPhone && row.images == d.images
    ensures row.name == d.name && row.price == d.price && row.stock == d.stock
    ensures row.category == d.category && row.condition == d.condition && row.status == d.status
    ensures row.location == d.location && row.description == d.description
  {
    InsertRow(d.name, d.price, d.category, d.condition, d.status, d.stock, d.location,
              d.description, d.images, d.sellerPhone)
  }

  /** The row the table holds after an insert, once the database has assigned an id and a
      creation time. */
  function Inserted(row: InsertRow, id: string, createdAt: string): ProductRow {
    ProductRow(id, row.name, row.price, row.category, row.condition, row.status, row.stock,
               row.location, row.description, Some(row.images), createdAt, row.seller_phone)
  }

  /** Writing a listing and reading it back gives the listing with its new identity, except that
      the two optional fields without a column are lost. */
  lemma InsertRoundTrip(d: ProductDraft, id: string, createdAt: string)
    ensures var p := MapProduct(Inserted(MapToSupabase(d), id, createdAt));
      p == WithIdentity(d.(timeSincePurchase := None, isFeatured := None), id, createdAt)
  {
  }

  /** Hence the round trip is exact precisely for listings without those fields. */
  lemma InsertRoundTripExact(d: ProductDraft, id: string, createdAt: string)
    ensures MapProduct(Inserted(MapToSupabase(d), id, createdAt)) == WithIdentity(d, id, createdAt)
        <==> d.timeSincePurchase.None? && d.isFeatured.None?
  {
    InsertRoundTrip(d, id, createdAt);
    var p := WithIdentity(d, id, createdAt);
    assert DraftOf(p) == d;
  }

  /** The row a product is read from: mapping it back gives the product, when the product has no
      optional fields. */
  lemma ReadRoundTrip(p: Product)
    requires p.timeSincePurchase.None? && p.isFeatured.None?
    ensures MapProduct(ProductRow(p.id, p.name, p.price, p.category, p.condition, p.status, p.stock,
      p.location, p.description, Some(p.images), p.createdAt, p.sellerPhone)) == p
  {
  }

  // ---------------------------------------------------------------------------
  // Partial updates

  /** A partial product: any field may be missing. */
  datatype ProductUpdate = ProductUpdate(
    id: Option<string>,
    name: Option<string>,
    price: Option<int>,
    category: Option<Category>,
    condition: Option<Condition>,
    status: Option<Status>,
    stock: Option<int>,
    location: Option<string>,
    description: Option<string>,
    images: Option<seq<string>>,
    createdAt: Option<string>,
    timeSincePurchase: Option<string>,
    isFeatured: Option<bool>,
    sellerPhone: Option<string>)

  /** The columns an update writes; a missing entry is a key left out of the patch. */
  datatype Patch = Patch(
    name: Option<string>,
    price: Option<int>,
    category: Option<Category>,
    condition: Option<Condition>,
    status: Option<Status>,
    stock: Option<int>,
    location: Option<string>,
    description: Option<string>,
    images: Option<seq<string>>,
    seller_phone: Option<string>)

  const EmptyPatch := Patch(None, None, None, None, None, None, None, None, None, None)

  /** A present, non-empty string (a truthy one). */
  predicate FilledText(s: Option<string>) {
    s.Some? && s.value != []
  }

  /** A present, non-zero number (a truthy one). */
  predicate FilledNumber(n: Option<int>) {
    n.Some? && n.value != 0
  }

  /** The patch an update produces: a text or number column only when its field is truthy, the
      stock whenever it is given (zero included), the enumerations and images whenever given, and
      nothing for the id, the creation time or the two optional fields. */
  function PatchOf(u: ProductUpdate): (p: Patch)
    ensures p.name.Some? <==> FilledText(u.name)
    ensures p.price.Some? <==> FilledNumber(u.price)
    ensures p.location.Some? <==> FilledText(u.location)
    ensures p.description.Some? <==> FilledText(u.description)
    ensures p.seller_phone.Some? <==> FilledText(u.sellerPhone)
    ensures p.name.Some? ==> p.name == u.name
    ensures p.price.Some? ==> p.price == u.price
    ensures p.location.Some? ==> p.location == u.location
    ensures p.description.Some? ==> p.description == u.description
    ensures p.seller_phone.Some? ==> p.seller_phone == u.sellerPhone
    ensures p.stock == u.stock && p.images == u.images
    ensures p.category == u.category && p.condition == u.condition && p.status == u.status
  {
    Patch(if FilledText(u.name) then u.name else None,
          if FilledNumber(u.price) then u.price else None,
          u.category, u.condition, u.status, u.stock,
          if FilledText(u.location) then u.location else None,
          if FilledText(u.description) then u.description else None,
          u.images,
          if FilledText(u.sellerPhone) then u.sellerPhone else None)
  }

  /** The patch is built one conditional assignment at a time; each local holds one key, `None`
      while the key is absent. */
  method BuildUpdatePatch(updates: ProductUpdate) returns (patch: Patch)
    ensures patch == PatchOf(updates)
  {
    var name: Option<string> := None;
    var price: Option<int> := None;
    var category: Option<Category> := None;
    var condition: Option<Condition> := None;
    var status: Option<Status> := None;
    var stock: Option<int> := None;
    var location: Option<string> := None;
    var description: Option<string> := None;
    var images: Option<seq<string>> := None;
    var sellerPhone: Option<string> := None;
    if FilledText(updates.name) { name := updates.name; }
    if FilledNumber(updates.price) { price := updates.price; }
    if updates.category.Some? { category := updates.category; }
    if updates.condition.Some? { condition := updates.condition; }
    if updates.status.Some? { status := updates.status; }
    if updates.stock.Some? { stock := updates.stock; }
    if FilledText(updates.location) { location := updates.location; }
    if FilledText(updates.description) { description := updates.description; }
    if updates.images.Some? { images := updates.images; }
    if FilledText(updates.sellerPhone) { sellerPhone := updates.sellerPhone; }
    patch := Patch(name, price, category, condition, status, stock, location, description, images, sellerPhone);
  }

  /** A stock of zero is written, while a price of zero and empty texts are silently dropped. */
  lemma ZeroStockKeptZeroPriceDropped(u: ProductUpdate)
    requires u.stock == Some(0) && u.price == Some(0) && u.name == Some("")
    ensures PatchOf(u).stock == Some(0)
    ensures PatchOf(u).price.None? && PatchOf(u).name.None?
  {
  }

  /** An update that only carries the identity or the optional fields writes nothing. */
  lemma IdentityOnlyUpdateIsEmpty(u: ProductUpdate)
    requires u.name.None? && u.price.None? && u.category.None? && u.condition.None?
    requires u.status.None? && u.stock.None? && u.location.None? && u.description.None?
    requires u.images.None? && u.sellerPhone.None?
    ensures PatchOf(u) == EmptyPatch
  {
  }

  /** Every field of a product, as an update. */
  function UpdateOf(p: Product): ProductUpdate {
    ProductUpdate(Some(p.id), Some(p.name), Some(p.price), Some(p.category), Some(p.condition),
                  Some(p.status), Some(p.stock), Some(p.location), Some(p.description),
                  Some(p.images), Some(p.createdAt), p.timeSincePurchase, p.isFeatured,
                  Some(p.sellerPhone))
  }

  /** Saving a whole product whose texts are filled and whose price is non-zero writes exactly
      the columns an insert of it would. */
  lemma FullUpdateMatchesInsert(p: Product)
    requires p.name != [] && p.location != [] && p.description != [] && p.sellerPhone != []
    requires p.price != 0
    ensures var ins := MapToSupabase(DraftOf(p));
      PatchOf(UpdateOf(p)) == Patch(Some(ins.name), Some(ins.price), Some(ins.category),
        Some(ins.condition), Some(ins.status), Some(ins.stock), Some(ins.location),
        Some(ins.description), Some(ins.images), Some(ins.seller_phone))
  {
  }

  // ---------------------------------------------------------------------------
  // Queries

  /** The answer of the products query: an error, or the rows (possibly null). */
  datatype ProductsAnswer = ProductsFailed(message: string) | ProductsRows(data: Option<seq<ProductRow>>)

  /** `getAll`: nothing when the backend is not configured (the query is then not made), the
      query's error as a failure, and otherwise every row mapped, in the order returned. */
  function GetAll(configured: bool, answer: ProductsAnswer): (r: Result<seq<Product>>)
    ensures !configured ==> r == Ok([])
    ensures configured && answer.ProductsFailed? ==> r == Err(answer.message)
    ensures configured && answer.ProductsRows? ==>
      r.Ok? && |r.value| == |answer.data.GetOr([])|
      && forall i :: 0 <= i < |r.value| ==> r.value[i] == MapProduct(answer.data.GetOr([])[i])
  {
    if !configured then Ok([])
    else
      match answer
      case ProductsFailed(message) => Err(message)
      case ProductsRows(data) =>
        var rows := data.GetOr([]);
        Ok(seq(|rows|, i requires 0 <= i < |rows| => MapProduct(rows[i])))
  }

  /** A row of the profiles table. */
  datatype ProfileRow = ProfileRow(
    id: string,
    email: string,
    username: Option<string>,
    role: string,
    avatar_url: Option<string>)

  datatype ProfileAnswer = ProfileFailed | ProfileFound(row: ProfileRow)

  /** The user built from a profile row: approved exactly when an admin, and with the stored
      avatar or else one generated from the username, or from the email when the username is
      missing or empty. */
  function BuildProfile(row: ProfileRow): (u: User)
    ensures u.id == row.id && u.email == row.email && u.username == row.username && u.role == row.role
    ensures u.isApproved <==> row.role == "admin"
    ensures FilledText(row.avatar_url) ==> u.avatar == row.avatar_url
    ensures !FilledText(row.avatar_url) && FilledText(row.username) ==> u.avatar == Some(AvatarFor(row.username.value))
    ensures !FilledText(row.avatar_url) && !FilledText(row.username) ==> u.avatar == Some(AvatarFor(row.email))
    ensures u.preferredCategories.None?
  {
    var avatar := if FilledText(row.avatar_url) then row.avatar_url.value
                  else AvatarFor(if FilledText(row.username) then row.username.value else row.email);
    User(row.id, row.email, row.username, row.role, row.role == "admin", Some(avatar), None)
  }

  /** `getProfile`: no user when the backend is not configured or the query fails. */
  function GetProfile(configured: bool, answer: ProfileAnswer): (u: Option<User>)
    ensures !configured || answer.ProfileFailed? ==> u.None?
    ensures configured && answer.ProfileFound? ==> u == Some(BuildProfile(answer.row))
  {
    if !configured then None
    else
      match answer
      case ProfileFailed => None
      case ProfileFound(row) => Some(BuildProfile(row))
  }

  /** Every user the profile query yields has a picture and is approved exactly when an admin. */
  lemma ProfileAlwaysHasAvatar(configured: bool, answer: ProfileAnswer)
    requires GetProfile(configured, answer).Some?
    ensures var u := GetProfile(configured, answer).value;
      u.avatar.Some? && u.avatar.value != [] && (u.isApproved <==> u.role == "admin")
  {
  }
}
