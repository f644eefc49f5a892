/** The application shell: the active tab, the selected listing, the signed-in user, the product
    list and the loading flag, and the choice of what the main area shows. Backend answers are
    inputs to the methods that receive them. */
module App {
  import opened Wrappers
  import opened Catalog
  import Home

  /** The four tabs of the navigation bar. */
  datatype Tab = Shop | Chat | ProfileTab | Admin

  /** What the main area shows. */
  datatype View =
    | Spinner
    | Detail(product: Product, others: seq<Product>)
    | HomeView(products: seq<Product>, loading: bool)
    | ProfileView(user: Option<User>)
    | Dashboard(products: seq<Product>)
    | ChatView(products: seq<Product>)

  predicate IsAdmin(user: Option<User>) {
    user.Some? && user.value.role == "admin"
  }

  /** The start-up spinner shows while loading with no products yet; then a selected listing
      takes the whole area; otherwise the active tab decides, the dashboard being reserved to
      administrators, who otherwise see the profile page. */
  function RenderContent(isLoading: bool, allProducts: seq<Product>, selected: Option<Product>,
                         tab: Tab, user: Option<User>): (v: View)
    ensures v.Spinner? <==> isLoading && |allProducts| == 0
    ensures v.Detail? <==> !(isLoading && |allProducts| == 0) && selected.Some?
    ensures v.Detail? ==> v.product == selected.value && v.others == allProducts
    ensures v.Dashboard? <==>
      !(isLoading && |allProducts| == 0) && selected.None? && tab == Admin && IsAdmin(user)
    ensures v.ProfileView? ==> v.user == user && (tab == ProfileTab || (tab == Admin && !IsAdmin(user)))
    ensures v.HomeView? <==> !(isLoading && |allProducts| == 0) && selected.None? && tab == Shop
    ensures v.ChatView? <==> !(isLoading && |allProducts| == 0) && selected.None? && tab == Chat
  {
    if isLoading && |allProducts| == 0 then Spinner
    else if selected.Some? then Detail(selected.value, allProducts)
    else
      match tab
      case Shop => HomeView(allProducts, isLoading && |allProducts| == 0)
      case ProfileTab => ProfileView(user)
      case Admin => if IsAdmin(user) then Dashboard(allProducts) else ProfileView(user)
      case Chat => ChatView(allProducts)
  }

  /** The shop page is only reached once the spinner is gone, so the loading flag it receives
      is always false and its own "gathering" message never shows. */
  lemma HomeNeverGathering(isLoading: bool, allProducts: seq<Product>, selected: Option<Product>,
                           tab: Tab, user: Option<User>, search: string, activeCategory: string)
    ensures var v := RenderContent(isLoading, allProducts, selected, tab, user);
      v.HomeView? ==> !v.loading && !Home.ListingView(v.loading, v.products, search, activeCategory).Gathering?
  {
  }

  /** Whoever is signed in, a non-administrator on the admin tab sees the profile page. */
  lemma NonAdminSeesProfile(isLoading: bool, allProducts: seq<Product>, tab: Tab, user: Option<User>)
    requires !(isLoading && |allProducts| == 0) && tab == Admin && !IsAdmin(user)
    ensures RenderContent(isLoading, allProducts, None, tab, user) == ProfileView(user)
  {
  }

  /** The shell's state, as one value. */
  datatype ShellState = ShellState(
    activeTab: Tab,
    selectedProduct: Option<Product>,
    user: Option<User>,
    allProducts: seq<Product>,
    isLoading: bool)

  class AppShell {
    var activeTab: Tab
    var selectedProduct: Option<Product>
    var user: Option<User>
    var allProducts: seq<Product>
    var isLoading: bool

    function State(): ShellState
      reads this
    {
      ShellState(activeTab, selectedProduct, user, allProducts, isLoading)
    }

    /** What the main area currently shows. */
    function Content(): View
      reads this
    {
      RenderContent(isLoading, allProducts, selectedProduct, activeTab, user)
    }

    constructor()
      ensures State() == ShellState(Shop, None, None, [], true)
      ensures Content() == Spinner
    {
      activeTab := Shop;
      selectedProduct := None;
      user := None;
      allProducts := [];
      isLoading := true;
    }

    /** Opening a listing: once past the spinner, the detail page of that listing shows. */
    method HandleSelectProduct(product: Product)
      modifies this
      ensures State() == old(State()).(selectedProduct := Some(product))
      ensures !Content().Spinner? ==> Content() == Detail(product, allProducts)
    {
      selectedProduct := Some(product);
    }

    /** Leaving a listing returns to the active tab. */
    method HandleBack()
      modifies this
      ensures State() == old(State()).(selectedProduct := None)
      ensures !Content().Detail?
    {
      selectedProduct := None;
    }

    /** Switching tab closes any open listing; the product list is to be refreshed exactly when
        the new tab is the shop or the admin tab. */
    method HandleTabChange(tab: Tab) returns (refresh: bool)
      modifies this
      ensures State() == old(State()).(selectedProduct := None, activeTab := tab)
      ensures refresh <==> tab == Shop || tab == Admin
      ensures !Content().Detail?
    {
      selectedProduct := None;
      activeTab := tab;
      refresh := tab == Shop || tab == Admin;
    }

    /** The end of a product fetch: a successful answer replaces the list, a failed one keeps it,
        and loading ends either way. */
    method FinishFetch(answer: Result<seq<Product>>)
      modifies this
      ensures answer.Ok? ==> State() == old(State()).(allProducts := answer.value, isLoading := false)
      ensures answer.Err? ==> State() == old(State()).(isLoading := false)
      ensures !Content().Spinner?
    {
      if answer.Ok? {
        allProducts := answer.value;
      }
      isLoading := false;
    }

    /** The end of the start-up session check: with a session the user becomes the profile that
        was found (possibly none); loading ends either way. */
    method FinishAuthCheck(hasSession: bool, profile: Option<User>)
      modifies this
      ensures hasSession ==> State() == old(State()).(user := profile, isLoading := false)
      ensures !hasSession ==> State() == old(State()).(isLoading := false)
      ensures !Content().Spinner?
    {
      if hasSession {
        user := profile;
      }
      isLoading := false;
    }

    /** A sign-in or sign-out notification: the user follows the session. */
    method HandleAuthChange(hasSession: bool, profile: Option<User>)
      modifies this
      ensures State() == old(State()).(user := if hasSession then profile else None)
    {
      if hasSession {
        user := profile;
      } else {
        user := None;
      }
    }
  }
}
