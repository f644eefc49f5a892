# HarMarket marketplace core, modelled in Dafny

HarMarket is a campus marketplace for Nakuru and Egerton University. Sellers list products,
buyers browse and filter them, open a listing and contact the seller on WhatsApp. An assistant
chat answers questions about the inventory and recommends listings. Administrators add listings
and toggle whether they are sold out. This project models the logic behind those screens:

- `wrappers.dfy` holds the `Option` and `Result` types.
- `text.dfy` models the JavaScript string operations the pages use:
  - `trim` with the full JavaScript white-space set;
  - `startsWith` and `includes`;
  - ASCII `toLowerCase`;
  - `split` and `join` on one character.
- `seqs.dfy` models `Array.prototype.filter` and the order-preserving subsequence relation.
- `catalog.dfy` holds the product and user records and the draft a new listing starts from.
- `recommendations.dfy` covers the assistant's product markers (`[ID: …]`):
  - finding them and stripping them from the displayed text;
  - resolving them to catalogue products, first mention first and without repeats;
  - the inventory context sent with each question.
- `segmenter.dfy` models how a reply is laid out:
  - splitting into lines;
  - classifying each line as blank, heading, list item or paragraph;
  - cutting each line into plain, emphasised and currency spans, following the capture-group
    semantics of `String.prototype.split` with a regular expression.
- `conversation.dfy` covers citations from search results and the reply and apology messages. It
  also holds the chat session as a state machine: user turn, waiting, then a model turn.
- `mock_store.dfy` is the browser-storage product and user store, with its seed listings.
- `db_service.dfy` covers the database layer:
  - row mapping in both directions;
  - the update patch, which drops falsy fields;
  - the product list query and the profile lookup.
- `home.dfy` models the shop page's search and category filter and which message it shows.
- `product_detail.dfy` models the sold-out rule, the seller's other listings, the WhatsApp link
  and the picture gallery.
- `admin_dashboard.dfy` models the listing form:
  - location suggestions;
  - the media list;
  - validation on submit;
  - reset;
  - the status toggle.
- `app.dfy` models the application shell: tabs, the selected listing, loading, and the choice of
  what the main area shows.

Network answers, clocks, random ids and the browser's storage are inputs of the operations that
receive them (see "Left out").

The pages test `!text.trim()` to detect empty input. The model tests `IsBlank` (every character is
white space) instead; `Text.Trim`'s contract proves the two agree.

Where the written description of the system and the code disagree, the model follows the code:

- A heading needs two leading `#` characters. `SingleHashIsParagraph` shows that a line with one
  `#` is a paragraph.
- A search result with a `web` entry is cited even when it has no address
  (`CitationWithoutUri`).
- Removing markers from the displayed text leaves the spaces around them in place.

Two behaviours of the code as written are worth knowing:

- A reply line that opens with bold text starts with `*`, so it is taken for a list item. Its
  leading asterisks are then stripped as a list marker (`LeadingBoldIsListItem`).
- The shop page's "Gathering items" message can never show. The shell only renders the shop page
  after its own spinner is gone, and passes it a loading flag that is then always false
  (`HomeNeverGathering`).

## Model

| member | source | states |
|---|---|---|
| Text.Trim | pages/AIChatPage.tsx:52 | the trimmed text is empty exactly when the input is all white space, and otherwise neither starts nor ends with white space |
| Text.JoinSplit | pages/AIChatPage.tsx:123 | joining the pieces of a split with the separator gives the text back |
| Text.SplitJoin | pages/AIChatPage.tsx:63-64 | splitting a join of separator-free pieces gives the pieces back |
| Seqs.Filter | services/mockStore.ts:110 | the filtered list is an order-preserving subsequence holding exactly the elements that pass the test |
| Catalog.WithIdentity | services/mockStore.ts:92-96 | the new product keeps every field of the draft and takes the given id and creation time |
| Catalog.IdentityRoundTrip | services/mockStore.ts:90-96 | splitting a product into its draft and identity and rebuilding it gives the same product |
| Recommendations.MarkerAt | pages/AIChatPage.tsx:38 | a marker is `[ID:`, optional white space, a non-empty run of word characters or `-`, and `]` |
| Recommendations.MarkerIds | pages/AIChatPage.tsx:38-41 | every id read from the markers is a non-empty identifier |
| Recommendations.MarkerIdsComplete | pages/AIChatPage.tsx:38-41 | every marker starting at or after the reading position contributes its id |
| Recommendations.MarkerIdsSound | pages/AIChatPage.tsx:38-41 | every id read is the id of a marker starting at or after the reading position |
| Recommendations.MarkerIdsFirst | pages/AIChatPage.tsx:38-41 | the ids come in text order: the first id read is that of the first marker, and reading resumes after it |
| Recommendations.StripMarkersLength | pages/AIChatPage.tsx:121 | stripping removes at least six characters per marker and leaves marker-free text unchanged |
| Recommendations.StripMarkersIdentity | pages/AIChatPage.tsx:121 | the displayed text equals the reply exactly when the reply holds no marker |
| Recommendations.FindIndex | pages/AIChatPage.tsx:42 | the result is the first position holding the id, and it is absent exactly when no product has that id |
| Recommendations.FindById | pages/AIChatPage.tsx:42 | a found product is in the list and has the id; nothing is found exactly when no product has it |
| Recommendations.ResolveSpec | pages/AIChatPage.tsx:39-46 | the recommendations are exactly the catalogue products whose id is mentioned, each once, ordered by first mention |
| Recommendations.ParseRecommendations | pages/AIChatPage.tsx:36-49 | the loop returns the resolution of the reply's marker ids, so it recommends exactly the mentioned catalogue products, without repeats, first mention first |
| Recommendations.NoMarkersNoRecommendations | pages/AIChatPage.tsx:39 | a reply without markers recommends nothing |
| Recommendations.ContextLines | pages/AIChatPage.tsx:64 | there is one inventory line per product, in catalogue order |
| Recommendations.InventoryContextLines | pages/AIChatPage.tsx:63-64 | for a non-empty catalogue whose names and locations hold no line break, the context splits back into one line per product |
| Recommendations.EmptyInventoryContext | pages/AIChatPage.tsx:65 | an empty catalogue gives the fixed no-items sentence, which holds no marker |
| Recommendations.ContextLineMarker | pages/AIChatPage.tsx:64 | a product's inventory line opens with a marker that reads back as the product's id |
| Segmenter.CloseAt | pages/AIChatPage.tsx:129 | the lazy emphasis match ends with `**`, and no line terminator lies before it |
| Segmenter.CloseAtFirst | pages/AIChatPage.tsx:129 | the lazy match stops at the first `**`: none lies between its start and its close |
| Segmenter.CloseAtFound | pages/AIChatPage.tsx:129 | a `**` reached without crossing a line terminator always closes the match, at that `**` or earlier |
| Segmenter.EmphasisAt | pages/AIChatPage.tsx:129 | an emphasis match opens and closes with `**` |
| Segmenter.EmphasisAtLazy | pages/AIChatPage.tsx:129 | an emphasis match closes at the first `**` after the opening one |
| Segmenter.EmphasisAtFound | pages/AIChatPage.tsx:129 | an opening `**` followed on the same line by another `**` is an emphasis match ending no later than that one |
| Segmenter.GroupsEndSpec | pages/AIChatPage.tsx:129 | the greedy `(?:,\d+)*` takes only comma-then-digits groups and stops only where no further group follows |
| Segmenter.DigitGroupsSpec | pages/AIChatPage.tsx:129 | `\d+(?:,\d+)*` from a digit takes digits and comma-then-digits groups, ends in a digit, and is followed by neither a digit nor a further group |
| Segmenter.CurrencyAt | pages/AIChatPage.tsx:129 | a currency match exists exactly where `KES`, an optional white space and a digit start, and spans at least one digit |
| Segmenter.CurrencyAtExtent | pages/AIChatPage.tsx:129 | a currency match runs from the first digit through every comma-then-digits group, ends in a digit, and cannot be extended |
| Segmenter.MatchAt | pages/AIChatPage.tsx:129 | the alternation tries emphasis before currency, and each match spans at least four characters |
| Segmenter.CutsTiled | pages/AIChatPage.tsx:129 | the split's cuts tile the line, alternating unmatched gaps and matches |
| Segmenter.CutsLeftmost | pages/AIChatPage.tsx:129 | no gap left between matches contains the start of a match |
| Segmenter.CutsNoMatch | pages/AIChatPage.tsx:129 | a line with no match is one piece |
| Segmenter.Slices | pages/AIChatPage.tsx:129 | each piece is the text between its cut's bounds |
| Segmenter.ConcatSlices | pages/AIChatPage.tsx:129 | the pieces concatenate back to the line |
| Segmenter.Parts | pages/AIChatPage.tsx:129 | a split gives an odd number of pieces that concatenate to the line |
| Segmenter.KesIndex | pages/AIChatPage.tsx:134 | the search finds a position where a currency amount starts with none before it, and reports none exactly when there is none |
| Segmenter.ProcessLine | pages/AIChatPage.tsx:128-139 | there is one span per piece of the split |
| Segmenter.ProcessLineSpec | pages/AIChatPage.tsx:129-138 | matched pieces show as emphasis of their inner text or as a currency amount; the gaps between them show as plain text, or as emphasis of their inner text when they begin and end with `**`, never as currency |
| Segmenter.TrailingStarsGapIsEmphasis | pages/AIChatPage.tsx:129-132 | `**x****` splits into an empty gap, the match `**x**` and the unmatched `**`, which shows as an empty emphasis |
| Segmenter.ProcessLinePlain | pages/AIChatPage.tsx:128-139 | text without bold markers or amounts is one plain span |
| Segmenter.EmphasisWins | pages/AIChatPage.tsx:129-132 | a line that is one bold run is shown as one emphasis span between two empty ones |
| Segmenter.BoldPriceIsEmphasis | pages/AIChatPage.tsx:129-135 | a bold price such as `**KES 1,200**` is shown as emphasis, not as a currency span |
| Segmenter.StripListMarker | pages/AIChatPage.tsx:148 | a line that does not open with a marker character is left as it is |
| Segmenter.StripListMarkerSpec | pages/AIChatPage.tsx:148 | a line opening with a marker loses its whole run of marker characters, then the whole run of white space after it |
| Segmenter.HeadingTextDropsHashes | pages/AIChatPage.tsx:142 | a heading loses its whole leading run of `#`, then the white space around the rest |
| Segmenter.ClassifyLineKinds | pages/AIChatPage.tsx:124-126 | a line is blank exactly when it is all white space, a heading exactly when it starts with `##`, a list item exactly when its trimmed text starts with `*`, `-` or digits and a dot, and otherwise a paragraph |
| Segmenter.SingleHashIsParagraph | pages/AIChatPage.tsx:125 | a line starting with a single `#` is a paragraph |
| Segmenter.LeadingBoldIsListItem | pages/AIChatPage.tsx:126-148 | a line opening with bold text is a list item whose leading asterisks are stripped before its spans are found |
| Segmenter.FormatText | pages/AIChatPage.tsx:119-152 | there is one block per line of the marker-free text, in order |
| Segmenter.PlainTextIsParagraphs | pages/AIChatPage.tsx:119-152 | plain text without markers, markup or line-kind prefixes is shown as one plain paragraph per line |
| Conversation.CitationOf | pages/AIChatPage.tsx:93-96 | a citation keeps the address and the title, with `Source` standing in for a missing or empty title |
| Conversation.Citations | pages/AIChatPage.tsx:90-96 | there are at most as many citations as search chunks, and every citation has a title |
| Conversation.CitationsAppend | pages/AIChatPage.tsx:91-96 | citations of joined chunk lists are the joined citations, so order is kept |
| Conversation.CitationsSkipNoWeb | pages/AIChatPage.tsx:92 | a chunk without a web entry contributes nothing |
| Conversation.CitationWithoutUri | pages/AIChatPage.tsx:92-95 | a web chunk without an address is still cited, as `Source` with no address |
| Conversation.CitationsAllWeb | pages/AIChatPage.tsx:91-96 | when every chunk has a web entry, there is one citation per chunk, in order |
| Conversation.ReplyText | pages/AIChatPage.tsx:87 | the shown text is the reply's text, or the placeholder when it is missing or empty |
| Conversation.NonEmpty | pages/AIChatPage.tsx:104-105 | an empty list is left out and a non-empty one is kept as it is |
| Conversation.ReplyMessage | pages/AIChatPage.tsx:98-106 | the model message carries the reply text, the resolved recommendations and the citations, each left out when empty |
| Conversation.ReplyMessageContents | pages/AIChatPage.tsx:98-106 | the suggestions are exactly the mentioned catalogue products without repeats, and every source has a title |
| Conversation.ReplyWithoutMarkers | pages/AIChatPage.tsx:98-104 | a reply whose text holds no `[`, and so no marker, carries no suggestions |
| Conversation.ApologyMessage | pages/AIChatPage.tsx:109-113 | a failure adds the fixed apology as a model message with no suggestions or sources |
| Conversation.AlternatingCounts | pages/AIChatPage.tsx:51-117 | in a log alternating user and model turns, the user turns number the model turns or one more |
| Conversation.LogBalance | pages/AIChatPage.tsx:51-117 | the chat is waiting exactly when the user has spoken once more than the model |
| Conversation.LogAppend | pages/AIChatPage.tsx:54-113 | appending the turn that is due keeps the log alternating and flips the waiting flag |
| Conversation.ChatSession.constructor | pages/AIChatPage.tsx:22-24 | the chat starts empty, with empty input, not waiting |
| Conversation.ChatSession.SetInput | pages/AIChatPage.tsx:259 | typing changes the input only |
| Conversation.ChatSession.Submit | pages/AIChatPage.tsx:52-65 | blank text or a pending reply is ignored; otherwise the user turn is appended, the input cleared, waiting begins, and the request carries the text and the inventory context |
| Conversation.ChatSession.SettleSuccess | pages/AIChatPage.tsx:87-116 | the reply message is appended and waiting ends |
| Conversation.ChatSession.SettleFailure | pages/AIChatPage.tsx:107-116 | the apology is appended and waiting ends |
| Conversation.ChatSession.HandleSendMessage | pages/AIChatPage.tsx:51-117 | a send either does nothing or appends the user turn and then the reply or apology, ending not waiting |
| MockStore.InitialProducts | services/mockStore.ts:10-79 | there are four seed listings, all available and created at load time |
| MockStore.InitialProductsWellFormed | services/mockStore.ts:10-79 | the seed listings have distinct ids, are in stock and have one picture each |
| MockStore.ReplaceById | services/mockStore.ts:104 | every entry with the updated id is replaced and every other entry is kept in place |
| MockStore.RemoveByIdSpec | services/mockStore.ts:110 | deleting removes every entry with the id, keeps all others, and keeps their order |
| MockStore.RemoveAbsent | services/mockStore.ts:110 | deleting an absent id changes nothing |
| MockStore.RemoveIdempotent | services/mockStore.ts:110 | deleting twice is deleting once |
| MockStore.ReplaceAbsent | services/mockStore.ts:104 | updating an absent id changes nothing |
| MockStore.ReplaceThenFind | services/mockStore.ts:102-106 | after an update of a present id, a lookup finds the updated record |
| MockStore.ReplaceIdempotent | services/mockStore.ts:104 | updating twice with the same record is updating once |
| MockStore.RemoveAfterReplace | services/mockStore.ts:102-112 | deleting an id undoes any update of it |
| MockStore.MockUser | services/mockStore.ts:119-127 | a mock sign-in is an approved admin exactly when the address contains `admin`, and gets a generated avatar |
| MockStore.AdminAddressIsAdmin | services/mockStore.ts:123-124 | any address containing `admin` signs in as an approved admin |
| MockStore.Store.constructor | services/mockStore.ts:10-79 | the store opens over the stored slots, with the seed list fixed at load time |
| MockStore.Store.GetStoredProducts | services/mockStore.ts:81-88 | an empty slot is seeded with and returns the seed list; a stored list is returned; the slot then holds the result |
| MockStore.Store.AddProduct | services/mockStore.ts:90-100 | the new listing, built from the draft with the given id and time, goes first and the others follow unchanged |
| MockStore.Store.UpdateProduct | services/mockStore.ts:102-106 | the stored list becomes the current list with the record replaced |
| MockStore.Store.DeleteProduct | services/mockStore.ts:108-112 | the stored list becomes the current list without the id |
| MockStore.Store.GetActiveUser | services/mockStore.ts:114-117 | the stored user is returned, or none |
| MockStore.Store.LoginMock | services/mockStore.ts:119-130 | the mock user is stored and returned; products are untouched |
| MockStore.Store.LogoutMock | services/mockStore.ts:132-134 | the user slot is emptied; products are untouched |
| DbService.MapProduct | services/dbService.ts:8-21 | a row maps field by field, missing pictures become an empty list, and purchase age and featured flag are dropped |
| DbService.MapToSupabase | services/dbService.ts:26-37 | a draft maps field by field to the snake-case insert row |
| DbService.InsertRoundTrip | services/dbService.ts:52-61 | reading back an inserted draft gives the draft with its new identity, without purchase age or featured flag |
| DbService.InsertRoundTripExact | services/dbService.ts:52-61 | a draft without purchase age or featured flag reads back unchanged |
| DbService.ReadRoundTrip | services/dbService.ts:8-21 | a product without purchase age or featured flag survives being written as a row and read back |
| DbService.PatchOf | services/dbService.ts:63-74 | text fields and the price are sent only when filled, stock whenever given, and the others whenever present |
| DbService.BuildUpdatePatch | services/dbService.ts:63-74 | the field-by-field construction gives exactly that patch |
| DbService.ZeroStockKeptZeroPriceDropped | services/dbService.ts:66-70 | a stock of zero is sent but a price of zero or an empty name is not |
| DbService.IdentityOnlyUpdateIsEmpty | services/dbService.ts:63-74 | an update naming only the id or creation time sends an empty patch |
| DbService.FullUpdateMatchesInsert | services/dbService.ts:26-74 | updating with every field of a filled product sends the same columns an insert would |
| DbService.GetAll | services/dbService.ts:40-50 | with no backend the list is empty, a query error is reported, and otherwise every row is mapped in order |
| DbService.BuildProfile | services/dbService.ts:125-132 | the profile is approved exactly for admins, and its avatar is the stored one or is generated from the username, else from the email |
| DbService.GetProfile | services/dbService.ts:115-133 | with no backend or a failed lookup there is no user; otherwise the row's profile |
| DbService.ProfileAlwaysHasAvatar | services/dbService.ts:131 | every profile found has an avatar |
| Home.FilteredProducts | pages/Home.tsx:17-24 | the shown products are, in order, exactly those whose name or location contains the search text, ignoring case, in the chosen category |
| Home.EmptySearchShowsAll | pages/Home.tsx:14-24 | the initial filters show every product |
| Home.SearchIgnoresCase | pages/Home.tsx:19-20 | lower-casing the search text changes nothing |
| Home.FilterIdempotent | pages/Home.tsx:17-24 | filtering the filtered list again changes nothing |
| Home.ListingView | pages/Home.tsx:78-84 | the gathering message shows exactly while loading with no products, the no-match message when the filter leaves nothing, and otherwise the filtered grid |
| Home.EmptyCatalogNoMatches | pages/Home.tsx:78-81 | an empty catalogue that is not loading shows the no-match message |
| Home.DefaultFiltersShowGrid | pages/Home.tsx:78-84 | a non-empty catalogue under the initial filters shows every product |
| ProductDetail.SoldOutCases | pages/ProductDetail.tsx:17 | a listing is sold out when so marked or out of stock, and otherwise not |
| ProductDetail.SameSellerProducts | pages/ProductDetail.tsx:19-21 | the other listings are, in order, exactly those with the same seller phone and a different id, so the listing itself is not among them |
| ProductDetail.ChatSellerLink | pages/ProductDetail.tsx:23-27 | there is no chat for a sold-out listing; otherwise the link goes to the seller's WhatsApp number |
| ProductDetail.ResetIndex | pages/ProductDetail.tsx:15 | a gallery that starts over shows a picture that exists |
| ProductDetail.StaleIndexExample | pages/ProductDetail.tsx:14-15 | an index kept from a three-picture listing points past the end of a one-picture listing |
| ProductDetail.Gallery.constructor | pages/ProductDetail.tsx:15 | the gallery opens on the first picture |
| ProductDetail.Gallery.SelectImage | pages/ProductDetail.tsx:72-80 | a dot exists only for two or more pictures, and pressing it shows that picture; anything else changes nothing |
| ProductDetail.Gallery.ShowListingAsWritten | pages/ProductDetail.tsx:14-15 | opening another listing in place keeps the index |
| ProductDetail.Gallery.ShowListing | pages/ProductDetail.tsx:14-15 | opening another listing with a fresh gallery keeps the index valid |
| AdminDashboard.SuggestionsWhenBlank | pages/AdminDashboard.tsx:52-54 | text whose trim is empty, the empty field included, suggests every known location |
| AdminDashboard.SuggestionsMatch | pages/AdminDashboard.tsx:46-50 | for non-blank text, the suggestions are, in order, exactly the known locations containing it, ignoring case |
| AdminDashboard.SuggestionsIgnoreCase | pages/AdminDashboard.tsx:47-49 | text differing only in case gives the same suggestions |
| AdminDashboard.MediaDecision | pages/AdminDashboard.tsx:63-71 | blank input is ignored, input not itself starting with `http` is rejected, and otherwise the trimmed address, which starts with `http`, is added |
| AdminDashboard.TrimStartsWithHttp | pages/AdminDashboard.tsx:65-69 | trimming an address that starts with `http` keeps that prefix |
| AdminDashboard.LeadingSpaceRejected | pages/AdminDashboard.tsx:64-67 | a valid address typed after a space is rejected, since the prefix test runs before trimming |
| AdminDashboard.AppendClean | pages/AdminDashboard.tsx:64-69 | an address the button accepts is trimmed and starts with `http`, so appending it keeps the media list clean |
| AdminDashboard.RemoveAt | pages/AdminDashboard.tsx:74 | removing by position shortens the list by one exactly when the position is in range, and otherwise keeps its length |
| AdminDashboard.RemoveAtInRange | pages/AdminDashboard.tsx:73-75 | removing a position in range deletes exactly that entry, keeping the others in order |
| AdminDashboard.RemoveAtOutOfRange | pages/AdminDashboard.tsx:73-75 | removing a position out of range changes nothing |
| AdminDashboard.RemoveAtClean | pages/AdminDashboard.tsx:69-75 | removing an entry keeps every stored address trimmed and starting with `http` |
| AdminDashboard.Reset | pages/AdminDashboard.tsx:113-122 | a reset clears the name, price, description, media, location and address field, restores the category and stock, and keeps everything else |
| AdminDashboard.ResetIdempotent | pages/AdminDashboard.tsx:113-122 | resetting twice is resetting once |
| AdminDashboard.ResetInitial | pages/AdminDashboard.tsx:13-29 | resetting a fresh form leaves it as it is |
| AdminDashboard.NextStatus | pages/AdminDashboard.tsx:132 | the toggle always changes the status |
| AdminDashboard.ToggleTwice | pages/AdminDashboard.tsx:132 | toggling twice restores the status |
| AdminDashboard.ToggleWritesOnlyStatus | pages/AdminDashboard.tsx:131-133 | the toggle's database update writes only the flipped status |
| AdminDashboard.AdminForm.constructor | pages/AdminDashboard.tsx:13-29 | the form starts hidden and idle, with category Electronics, condition New, status Available, stock 1 and the default seller phone |
| AdminDashboard.AdminForm.HandleLocationChange | pages/AdminDashboard.tsx:44-56 | typing keeps the text and shows the recomputed suggestions |
| AdminDashboard.AdminForm.SelectSuggestion | pages/AdminDashboard.tsx:58-61 | picking a suggestion fills the field and hides the list |
| AdminDashboard.AdminForm.CloseSuggestions | pages/AdminDashboard.tsx:34-42 | a press outside the list hides it |
| AdminDashboard.AdminForm.FocusLocation | pages/AdminDashboard.tsx:202-205 | focusing shows the suggestions, filling an empty list with every known location |
| AdminDashboard.AdminForm.SetCurrentUrl | pages/AdminDashboard.tsx:238 | typing an address changes that field only |
| AdminDashboard.AdminForm.AddMediaUrl | pages/AdminDashboard.tsx:63-71 | an added address is appended and the field cleared; an ignored or rejected one changes nothing; stored addresses stay clean |
| AdminDashboard.AdminForm.RemoveMedia | pages/AdminDashboard.tsx:73-75 | exactly the chosen entry is removed and nothing else changes |
| AdminDashboard.AdminForm.ResetForm | pages/AdminDashboard.tsx:113-122 | the form becomes its reset |
| AdminDashboard.AdminForm.ToggleForm | pages/AdminDashboard.tsx:145-148 | opening shows the form; closing hides and resets it |
| AdminDashboard.AdminForm.Draft | pages/AdminDashboard.tsx:90-101 | the listing sent carries the form's fields, the media list as pictures, and the parsed price and stock |
| AdminDashboard.AdminForm.HandleSubmit | pages/AdminDashboard.tsx:77-111 | once the handler runs: without media, or with a blank location, nothing is sent or changed; otherwise the draft is sent, and success closes and resets the form while failure leaves it; loading ends |
| AdminDashboard.AdminForm.SubmitForm | pages/AdminDashboard.tsx:158-282 | the handler runs only while the submit button is enabled and the `required` name, price, stock and description fields are filled, and otherwise nothing changes; so a sent listing always has a name and a description |
| App.RenderContent | App.tsx:75-110 | the spinner shows exactly while loading with no products, then a selected listing, then the tab's page, the dashboard only for admins |
| App.HomeNeverGathering | App.tsx:76-98 | the shop page always receives a false loading flag, so it never shows its gathering message |
| App.NonAdminSeesProfile | App.tsx:101-104 | a non-admin on the admin tab sees the profile page |
| App.AppShell.constructor | App.tsx:14-18 | the shell starts on the shop tab, loading, with nothing selected, so the spinner shows |
| App.AppShell.HandleSelectProduct | App.tsx:58-61 | selecting a listing shows its detail page once the spinner is gone |
| App.AppShell.HandleBack | App.tsx:63-65 | going back clears the selection, so no detail page shows |
| App.AppShell.HandleTabChange | App.tsx:67-73 | switching tab clears the selection and asks for a refresh exactly for the shop and admin tabs |
| App.AppShell.FinishFetch | App.tsx:20-29 | a fetched list replaces the products, a failed fetch keeps them, and loading ends either way |
| App.AppShell.FinishAuthCheck | App.tsx:33-40 | with a session the user becomes the fetched profile; loading ends either way |
| App.AppShell.HandleAuthChange | App.tsx:46-53 | the user follows the session: its profile when signed in, none when signed out |

## Left out

- The Gemini request is left out, with its model name, system prompt and search tool. The request
  is modelled as the user's text and the inventory context; the answer, or a failure, is an input.
- Database and authentication calls are left out. Their answers are inputs: `ProductsAnswer`,
  `ProfileAnswer`, the add result of the submit, and the session flags of the shell.
- Browser storage and JSON encoding are left out. The two storage slots are fields of the store.
- Random ids, `new Date()` and `toISOString` are left out. They are parameters.
- Rendering is left out: the JSX markup, class names, scrolling, alerts and `confirm`.
- `window.open` and the WhatsApp message text are left out. The text uses `encodeURIComponent`
  and `formatCurrency`; the model keeps only the link's target.
- `parseFloat` and `parseInt` of the price and stock fields are left out. The parsed values are
  parameters of the submit, so `NaN` is not modelled. The `required` number inputs hold a
  non-empty, valid number whenever the form is submitted (`SubmitForm`), so the parse sees a number.
- Catalog.Product: price is an integer. The code parses it with `parseFloat`, so a price may be
  fractional (such as 1500.5); fractional prices, and how the inventory line prints them, are not
  modelled.
- The known Kenyan locations and the category list live in a constants file that is not part of
  this model. The locations are a parameter of the form.
- `toLowerCase` is modelled for ASCII letters only; other characters are unchanged.
- Concurrency between the start-up fetch, the session check and later fetches is left out. Each
  completion is a separate method, applied in whichever order the caller chooses.
- Listing deletion in the dashboard, media upload, `productDB.add` itself and the profile page
  are left out. They are single database calls or screens outside this core.
- The dashboard setters for name, price, stock, category, condition and description are left out.
  Each sets its one field.
- `setStatus` and `setSellerPhone` are never called, so status and seller phone keep their initial
  values. The model stores them but has no operation changing them.
- The chat's hint chips and form submit call `handleSendMessage` with the chip text or the input;
  `HandleSendMessage` covers both.
- Conversation.ChatSession.SettleSuccess: requires a pending reply. The source settles only after
  its own send, so a settle without a pending reply cannot happen there.
- Conversation.ChatSession.SettleFailure: requires a pending reply, for the same reason.

## Findings

| source | as written | input that shows it | evidently intended | confidence | as-written member | corrected member |
|---|---|---|---|---|---|---|
| pages/ProductDetail.tsx:15 | the detail page is rendered in place, without a key, when one of the seller's other listings is opened, so the picture index survives the change of listing | view the third picture of a three-picture listing, then open the seller's one-picture listing: the index stays 2, past the only picture | the gallery starts from the first picture for each listing | medium, not executed | ProductDetail.StaleIndexExample | ProductDetail.Gallery.ShowListing |
