/** The administrator's listing form: location suggestions, the media list, validation on submit,
    reset, and the status toggle of existing listings. The list of known locations is a
    parameter; parsing the price and stock fields and the database call happen outside and
    their results are inputs. */
module AdminDashboard {
  import opened Wrappers
  import opened Text
  import opened Seqs
  import opened Catalog
  import DbService

  /** The listing fields of the form. */
  datatype ListingFields = ListingFields(
    name: string,
    price: string,
    category: Category,
    condition: Condition,
    status: Status,
    stock: string,
    description: string,
    sellerPhone: string)

  /** The location field and its suggestion list. */
  datatype LocationField = LocationField(text: string, suggestions: seq<string>, shown: bool)

  /** The media list and the address being typed. */
  datatype MediaField = MediaField(urls: seq<string>, currentUrl: string)

  /** Every field of the form, as one value. */
  datatype FormState = FormState(
    showForm: bool,
    loading: bool,
    listing: ListingFields,
    place: LocationField,
    media: MediaField)

  const DefaultSellerPhone: string := "254700000000"

  /** The form as the page first shows it. */
  const InitialForm := FormState(false, false,
    ListingFields("", "", Electronics, New, Available, "1", "", DefaultSellerPhone),
    LocationField("", [], false), MediaField([], ""))

  /** The suggestion test: the location contains the typed text, ignoring ASCII case. */
  function Mentions(typed: string): string -> bool {
    (l: string) => Contains(Lower(l), Lower(typed))
  }

  /** The suggestions for a typed location: all known locations when the text is blank (its
      trim is empty, by the contract of `Trim`), otherwise those that contain it. */
  function SuggestionsFor(known: seq<string>, typed: string): seq<string> {
    if IsBlank(typed) then known else Filter(known, Mentions(typed))
  }

  /** Blank text, including the empty field, suggests every known location. */
  lemma SuggestionsWhenBlank(known: seq<string>, typed: string)
    requires IsBlank(typed)
    ensures SuggestionsFor(known, typed) == known
  {
  }

  /** For non-blank text the suggestions are, in their original order, exactly the known
      locations that contain it. */
  lemma SuggestionsMatch(known: seq<string>, typed: string)
    requires !IsBlank(typed)
    ensures var r := SuggestionsFor(known, typed);
      && IsSubseq(r, known)
      && (forall i :: 0 <= i < |r| ==> Contains(Lower(r[i]), Lower(typed)))
      && (forall i :: 0 <= i < |known| && Contains(Lower(known[i]), Lower(typed)) ==> known[i] in r)
  {
    var r := SuggestionsFor(known, typed);
    forall i | 0 <= i < |r| ensures Contains(Lower(r[i]), Lower(typed)) {
      assert Mentions(typed)(r[i]);
    }
    forall i | 0 <= i < |known| && Contains(Lower(known[i]), Lower(typed)) ensures known[i] in r {
      assert Mentions(typed)(known[i]);
    }
  }

  /** Typed text that differs only in ASCII case gives the same suggestions. */
  lemma SuggestionsIgnoreCase(known: seq<string>, a: string, b: string)
    requires Lower(a) == Lower(b) && !IsBlank(a) && !IsBlank(b)
    ensures SuggestionsFor(known, a) == SuggestionsFor(known, b)
  {
    FilterExt(known, Mentions(a), Mentions(b));
  }

  /** What pressing the add-media button does with the typed address. */
  datatype MediaOutcome = Ignored | Rejected | Added(url: string)

  /** Blank input is ignored; input that does not itself start with "http" is rejected (so
      leading white space gets a valid address rejected); otherwise the trimmed input is added. */
  function MediaDecision(currentUrl: string): (o: MediaOutcome)
    ensures o.Ignored? <==> IsBlank(currentUrl)
    ensures o.Rejected? <==> !IsBlank(currentUrl) && !StartsWith(currentUrl, "http")
    ensures o.Added? ==> o.url == Trim(currentUrl) && StartsWith(o.url, "http")
  {
    if Trim(currentUrl) == [] then Ignored
    else if !StartsWith(currentUrl, "http") then Rejected
    else
      TrimStartsWithHttp(currentUrl);
      Added(Trim(currentUrl))
  }

  /** Trimming a string that starts with "http" keeps that prefix. */
  lemma TrimStartsWithHttp(s: string)
    requires StartsWith(s, "http")
    ensures StartsWith(Trim(s), "http")
  {
    assert s[0] == 'h' && s[3] == 'p';
    assert TrimStart(s) == s;
    var r := TrimEnd(s);
    assert !IsSpace(s[3]);
    assert |r| >= 4;
    assert r[..4] == s[..4];
  }

  /** A valid address typed after a space is rejected. */
  lemma LeadingSpaceRejected()
    ensures MediaDecision(" http://a") == Rejected
  {
    var u := " http://a";
    assert !IsBlank(u) by {
      assert !IsSpace(u[1]);
    }
    assert u[..4][0] != "http"[0];
  }

  /** `prev.filter((_, i) => i !== index)`. */
  function RemoveAt(s: seq<string>, index: int): (r: seq<string>)
    ensures |r| == if 0 <= index < |s| then |s| - 1 else |s|
  {
    if s == [] then []
    else RemoveAt(s[..|s| - 1], index) + (if |s| - 1 != index then [s[|s| - 1]] else [])
  }

  /** Removing a position in range deletes that entry only, keeping the others in order. */
  lemma {:induction false} RemoveAtInRange(s: seq<string>, index: int)
    requires 0 <= index < |s|
    ensures RemoveAt(s, index) == s[..index] + s[index + 1..]
  {
    var last := |s| - 1;
    if index == last {
      RemoveAtOutOfRange(s[..last], index);
      assert s[index + 1..] == [];
    } else {
      RemoveAtInRange(s[..last], index);
      assert s[..last][..index] == s[..index];
      assert s[..last][index + 1..] + [s[last]] == s[index + 1..];
    }
  }

  /** Removing a position out of range changes nothing. */
  lemma {:induction false} RemoveAtOutOfRange(s: seq<string>, index: int)
    requires !(0 <= index < |s|)
    ensures RemoveAt(s, index) == s
  {
    if s != [] {
      RemoveAtOutOfRange(s[..|s| - 1], index);
      assert s[..|s| - 1] + [s[|s| - 1]] == s;
    }
  }

  /** An address as the add-media button stores it: trimmed, and starting with "http". */
  predicate CleanUrl(url: string) {
    StartsWith(url, "http") && Trim(url) == url
  }

  /** Every address in a media list is clean. */
  ghost predicate CleanUrls(urls: seq<string>) {
    forall i :: 0 <= i < |urls| ==> CleanUrl(urls[i])
  }

  /** An address the add-media button accepts is clean, and appending it keeps a clean list clean. */
  lemma AppendClean(urls: seq<string>, currentUrl: string)
    requires MediaDecision(currentUrl).Added?
    ensures CleanUrl(MediaDecision(currentUrl).url)
    ensures CleanUrls(urls) ==> CleanUrls(urls + [MediaDecision(currentUrl).url])
  {
    var u := MediaDecision(currentUrl).url;
    TrimNoop(u);
    var r := urls + [u];
    if CleanUrls(urls) {
      forall i | 0 <= i < |r| ensures CleanUrl(r[i]) {
        if i < |urls| {
          assert r[i] == urls[i];
        }
      }
    }
  }

  /** Whatever holds of every entry still holds after a removal. */
  lemma {:induction false} RemoveAtKeeps(s: seq<string>, index: int, P: string -> bool)
    requires forall i :: 0 <= i < |s| ==> P(s[i])
    ensures forall i :: 0 <= i < |RemoveAt(s, index)| ==> P(RemoveAt(s, index)[i])
  {
    if s != [] {
      var init := s[..|s| - 1];
      assert forall i :: 0 <= i < |init| ==> init[i] == s[i];
      RemoveAtKeeps(init, index, P);
      var r := RemoveAt(s, index);
      var ri := RemoveAt(init, index);
      assert r == ri + (if |s| - 1 != index then [s[|s| - 1]] else []);
      forall i | 0 <= i < |r| ensures P(r[i]) {
        if i < |ri| {
          assert r[i] == ri[i];
        } else {
          assert r[i] == s[|s| - 1];
        }
      }
    }
  }

  /** Removing an entry keeps a clean list clean. */
  lemma RemoveAtClean(s: seq<string>, index: int)
    requires CleanUrls(s)
    ensures CleanUrls(RemoveAt(s, index))
  {
    RemoveAtKeeps(s, index, CleanUrl);
  }

  /** How a submission ends. */
  datatype SubmitOutcome = MissingMedia | MissingLocation | Saved | SaveFailed

  /** The fields whose inputs carry `required`: the browser blocks the submit while any is empty. */
  predicate RequiredFilled(l: ListingFields) {
    l.name != [] && l.price != [] && l.stock != [] && l.description != []
  }

  /** The browser submits the form only while its button is enabled and the required fields are
      filled. */
  predicate SubmitAllowed(f: FormState) {
    !f.loading && RequiredFilled(f.listing)
  }

  /** The form after a reset: the listing fields are cleared, category and stock return to their
      defaults, condition, status and seller phone are kept, and so is everything outside the
      listing, the location text and the media. */
  function Reset(f: FormState): (g: FormState)
    ensures g.listing.name == [] && g.listing.price == [] && g.listing.description == []
    ensures g.listing.category == Electronics && g.listing.stock == "1"
    ensures g.listing.condition == f.listing.condition && g.listing.status == f.listing.status
    ensures g.listing.sellerPhone == f.listing.sellerPhone
    ensures g.media == MediaField([], "") && g.place == f.place.(text := "")
    ensures g.showForm == f.showForm && g.loading == f.loading
  {
    f.(listing := f.listing.(name := "", price := "", description := "", category := Electronics,
                             stock := "1"),
       place := f.place.(text := ""),
       media := MediaField([], ""))
  }

  /** Resetting twice is resetting once. */
  lemma ResetIdempotent(f: FormState)
    ensures Reset(Reset(f)) == Reset(f)
  {
  }

  /** Resetting the initial form gives the initial form back. */
  lemma ResetInitial()
    ensures Reset(InitialForm) == InitialForm
  {
  }

  /** `toggleStatus`: an available listing becomes sold out, anything else available. */
  function NextStatus(s: Status): (t: Status)
    ensures t != s
  {
    if s == Available then SoldOut else Available
  }

  /** With two statuses, toggling twice restores the status. */
  lemma ToggleTwice(s: Status)
    ensures NextStatus(NextStatus(s)) == s
  {
  }

  /** The update a status toggle sends: only the new status. */
  function ToggleUpdate(p: Product): DbService.ProductUpdate {
    DbService.ProductUpdate(None, None, None, None, None, Some(NextStatus(p.status)), None, None,
                            None, None, None, None, None, None)
  }

  /** The toggle writes exactly one column, the flipped status. */
  lemma ToggleWritesOnlyStatus(p: Product)
    ensures DbService.PatchOf(ToggleUpdate(p)) ==
      DbService.EmptyPatch.(status := Some(NextStatus(p.status)))
  {
  }

  class AdminForm {
    var showForm: bool
    var loading: bool
    var listing: ListingFields
    var place: LocationField
    var media: MediaField
    /** The known locations offered as suggestions. */
    const knownLocations: seq<string>

    function State(): FormState
      reads this
    {
      FormState(showForm, loading, listing, place, media)
    }

    /** Every address in the media list is trimmed and starts with "http". */
    ghost predicate Valid()
      reads this
    {
      CleanUrls(media.urls)
    }

    constructor(knownLocations: seq<string>)
      ensures State() == InitialForm && this.knownLocations == knownLocations
      ensures Valid()
    {
      this.knownLocations := knownLocations;
      showForm, loading := false, false;
      listing := ListingFields("", "", Electronics, New, Available, "1", "", DefaultSellerPhone);
      place := LocationField("", [], false);
      media := MediaField([], "");
    }

    /** Typing in the location field: the text is kept and the suggestions recomputed and shown. */
    method HandleLocationChange(val: string)
      modifies this
      ensures State() == old(State()).(place := LocationField(val, SuggestionsFor(knownLocations, val), true))
    {
      var suggestions := SuggestionsFor(knownLocations, val);
      place := LocationField(val, suggestions, true);
    }

    /** Picking a suggestion fills the field and hides the list. */
    method SelectSuggestion(val: string)
      modifies this
      ensures State() == old(State()).(place := old(place).(text := val, shown := false))
    {
      place := place.(text := val, shown := false);
    }

    /** A press outside the suggestion list hides it. */
    method CloseSuggestions()
      modifies this
      ensures State() == old(State()).(place := old(place).(shown := false))
    {
      place := place.(shown := false);
    }

    /** Focusing the location field shows the suggestions, all known locations if there were none. */
    method FocusLocation()
      modifies this
      ensures old(place.suggestions) == [] ==>
        State() == old(State()).(place := old(place).(suggestions := knownLocations, shown := true))
      ensures old(place.suggestions) != [] ==>
        State() == old(State()).(place := old(place).(shown := true))
    {
      if |place.suggestions| == 0 {
        place := place.(suggestions := knownLocations);
      }
      place := place.(shown := true);
    }

    /** Editing the media address field. */
    method SetCurrentUrl(value: string)
      modifies this
      ensures State() == old(State()).(media := old(media).(currentUrl := value))
      ensures old(Valid()) ==> Valid()
    {
      media := media.(currentUrl := value);
    }

    /** The add-media button: an added address goes at the end of the list, trimmed, and the
        field is cleared; an ignored or rejected one changes nothing. */
    method AddMediaUrl() returns (outcome: MediaOutcome)
      modifies this
      ensures outcome == MediaDecision(old(media.currentUrl))
      ensures !outcome.Added? ==> State() == old(State())
      ensures outcome.Added? ==>
        State() == old(State()).(media := MediaField(old(media.urls) + [outcome.url], ""))
      ensures old(Valid()) ==> Valid()
    {
      if IsBlank(media.currentUrl) {
        return Ignored;
      }
      if !StartsWith(media.currentUrl, "http") {
        return Rejected;
      }
      outcome := MediaDecision(media.currentUrl);
      AppendClean(media.urls, outcome.url);
      media := MediaField(media.urls + [outcome.url], "");
    }

    /** The remove button of the entry at `index`: in range, exactly that entry goes. */
    method RemoveMedia(index: int)
      modifies this
      ensures State() == old(State()).(media := old(media).(urls := RemoveAt(old(media.urls), index)))
      ensures 0 <= index < |old(media.urls)| ==>
        media.urls == old(media.urls)[..index] + old(media.urls)[index + 1..]
      ensures !(0 <= index < |old(media.urls)|) ==> media.urls == old(media.urls)
      ensures old(Valid()) ==> Valid()
    {
      if 0 <= index < |media.urls| {
        RemoveAtInRange(media.urls, index);
      } else {
        RemoveAtOutOfRange(media.urls, index);
      }
      if Valid() {
        RemoveAtClean(media.urls, index);
      }
      media := media.(urls := RemoveAt(media.urls, index));
    }

    /** Clears the listing fields. */
    method ResetForm()
      modifies this
      ensures State() == Reset(old(State()))
      ensures Valid()
    {
      listing := listing.(name := "", price := "", description := "", category := Electronics,
                          stock := "1");
      place := place.(text := "");
      media := MediaField([], "");
    }

    /** The "New Listing"/"Cancel" button: closing the form also resets it. */
    method ToggleForm()
      modifies this
      ensures old(showForm) ==> State() == Reset(old(State())).(showForm := false)
      ensures !old(showForm) ==> State() == old(State()).(showForm := true)
      ensures old(Valid()) ==> Valid()
    {
      if showForm {
        ResetForm();
      }
      showForm := !showForm;
    }

    /** The listing a submission sends, with the parsed price and stock. */
    function Draft(parsedPrice: int, parsedStock: int): (d: ProductDraft)
      reads this
      ensures d.images == media.urls && d.location == place.text && d.name == listing.name
      ensures d.price == parsedPrice && d.stock == parsedStock
      ensures d.sellerPhone == listing.sellerPhone && d.status == listing.status
      ensures d.timeSincePurchase.None? && d.isFeatured.None?
    {
      ProductDraft(listing.name, parsedPrice, listing.category, listing.condition, listing.status,
                   parsedStock, place.text, listing.description, media.urls, None, None,
                   listing.sellerPhone)
    }

    /** Submitting: without media, or with a blank location, nothing is sent and nothing changes.
        Otherwise the listing is sent; if the database accepts it the list is refreshed and the
        form closed and reset, and if not the form stays as it was. Either way loading ends. */
    method HandleSubmit(parsedPrice: int, parsedStock: int, addSucceeds: bool)
      returns (outcome: SubmitOutcome, sent: Option<ProductDraft>)
      modifies this
      ensures |old(media.urls)| == 0 ==> outcome == MissingMedia
      ensures |old(media.urls)| > 0 && IsBlank(old(place.text)) ==> outcome == MissingLocation
      ensures outcome.MissingMedia? || outcome.MissingLocation? ==>
        sent.None? && State() == old(State())
      ensures |old(media.urls)| > 0 && !IsBlank(old(place.text)) ==>
        && sent == Some(old(Draft(parsedPrice, parsedStock)))
        && (addSucceeds ==> outcome == Saved && State() == Reset(old(State())).(showForm := false, loading := false))
        && (!addSucceeds ==> outcome == SaveFailed && State() == old(State()).(loading := false))
      ensures old(Valid()) ==> Valid()
    {
      if |media.urls| == 0 {
        return MissingMedia, None;
      }
      if IsBlank(place.text) {
        return MissingLocation, None;
      }
      loading := true;
      sent := Some(Draft(parsedPrice, parsedStock));
      if addSucceeds {
        showForm := false;
        ResetForm();
        outcome := Saved;
      } else {
        outcome := SaveFailed;
      }
      loading := false;
    }

    /** Pressing "Push to HarMarket": the browser submits the form, and so runs the handler, only
        when the button is enabled (no save is under way) and every `required` field holds a
        value; otherwise nothing happens. So a listing that is sent always has a name, a price, a
        stock and a description. */
    method SubmitForm(parsedPrice: int, parsedStock: int, addSucceeds: bool)
      returns (outcome: Option<SubmitOutcome>, sent: Option<ProductDraft>)
      modifies this
      ensures !SubmitAllowed(old(State())) ==> outcome.None? && sent.None? && State() == old(State())
      ensures SubmitAllowed(old(State())) ==> outcome.Some?
      ensures SubmitAllowed(old(State())) && |old(media.urls)| == 0 ==> outcome == Some(MissingMedia)
      ensures SubmitAllowed(old(State())) && |old(media.urls)| > 0 && IsBlank(old(place.text)) ==>
        outcome == Some(MissingLocation)
      ensures SubmitAllowed(old(State())) && |old(media.urls)| > 0 && !IsBlank(old(place.text)) ==>
        && sent == Some(old(Draft(parsedPrice, parsedStock)))
        && (addSucceeds ==> outcome == Some(Saved) && State() == Reset(old(State())).(showForm := false, loading := false))
        && (!addSucceeds ==> outcome == Some(SaveFailed) && State() == old(State()).(loading := false))
      ensures sent.Some? ==> sent.value.name != [] && sent.value.description != []
      ensures outcome.None? || outcome.value.MissingMedia? || outcome.value.MissingLocation? ==>
        sent.None? && State() == old(State())
      ensures old(Valid()) ==> Valid()
    {
      if loading || !RequiredFilled(listing) {
        return None, None;
      }
      var o;
      o, sent := HandleSubmit(parsedPrice, parsedStock, addSucceeds);
      outcome := Some(o);
    }
  }
}
