/** The assistant's entity markers: the inventory context that teaches the assistant the
    `[ID: x]` format, the scanner that finds those markers in a reply, the catalog resolver
    behind the chat page's `parseRecommendations`, and the marker removal done before display. */
module Recommendations {
  import opened Wrappers
  import opened Text
  import opened Catalog

  // ---------------------------------------------------------------------------
  // The marker pattern `\[ID:\s*([\w-]+)\]`

  /** `[\w-]`. */
  predicate IsIdChar(c: char) {
    IsWordChar(c) || c == '-'
  }

  /** What `[\w-]+` matches as a whole. */
  predicate IsIdentifier(id: string) {
    |id| > 0 && forall i :: 0 <= i < |id| ==> IsIdChar(id[i])
  }

  /** A marker occurrence: the identifier is `s[idStart..idEnd]` and the marker ends before `end`. */
  datatype MarkerMatch = MarkerMatch(idStart: nat, idEnd: nat, end: nat)

  /** The marker that starts exactly at `i`, if any. White space and identifier characters are
      disjoint and `]` is not an identifier character, so the greedy runs taken here are the
      only way the pattern can match. */
  function MarkerAt(s: string, i: nat): (m: Option<MarkerMatch>)
    requires i <= |s|
    ensures m.Some? ==> i + 4 <= m.value.idStart < m.value.idEnd < m.value.end <= |s|
    ensures m.Some? ==> m.value.end == m.value.idEnd + 1 && s[m.value.idEnd] == ']'
    ensures m.Some? ==> s[i..i + 4] == "[ID:" && IsIdentifier(s[m.value.idStart..m.value.idEnd])
    ensures m.Some? ==> forall k :: i + 4 <= k < m.value.idStart ==> IsSpace(s[k])
  {
    if i + 4 <= |s| && s[i..i + 4] == "[ID:" then
      var j := RunEnd(s, i + 4, IsSpace);
      var k := RunEnd(s, j, IsIdChar);
      if j < k < |s| && s[k] == ']' then Some(MarkerMatch(j, k, k + 1)) else None
    else
      None
  }

  /** The identifiers of the markers found by a global match from `i` on, in text order and with
      repetitions (the matches of `text.match(/\[ID:\s*([\w-]+)\]/g)` with the bracket, the
      `ID:` token and the white space removed). */
  function MarkerIds(s: string, i: nat): (ids: seq<string>)
    requires i <= |s|
    ensures forall k :: 0 <= k < |ids| ==> IsIdentifier(ids[k])
    decreases |s| - i
  {
    if i == |s| then []
    else
      match MarkerAt(s, i)
      case Some(m) => [s[m.idStart..m.idEnd]] + MarkerIds(s, m.end)
      case None => MarkerIds(s, i + 1)
  }

  /** The identifier of the marker that starts at `j`. */
  function IdAt(s: string, j: nat): string
    requires j <= |s| && MarkerAt(s, j).Some?
  {
    s[MarkerAt(s, j).value.idStart..MarkerAt(s, j).value.idEnd]
  }

  /** After its opening bracket a marker holds no `[`, so no marker starts inside another. */
  lemma MarkerHasNoInnerBracket(s: string, i: nat)
    requires i <= |s| && MarkerAt(s, i).Some?
    ensures forall k :: i < k < MarkerAt(s, i).value.end ==> s[k] != '['
  {
    var m := MarkerAt(s, i).value;
    forall k | i < k < m.end
      ensures s[k] != '['
    {
      if k < i + 4 {
        assert s[i..i + 4][k - i] == s[k];
      } else if m.idStart <= k < m.idEnd {
        assert s[m.idStart..m.idEnd][k - m.idStart] == s[k];
      }
    }
  }

  /** Every marker from `i` on contributes its identifier. */
  lemma {:induction false} MarkerIdsComplete(s: string, i: nat, j: nat)
    requires i <= j < |s| && MarkerAt(s, j).Some?
    ensures IdAt(s, j) in MarkerIds(s, i)
    decreases j - i
  {
    match MarkerAt(s, i)
    case Some(m) =>
      if i < j {
        MarkerHasNoInnerBracket(s, i);
        assert s[j] == s[j..j + 4][0];
        MarkerIdsComplete(s, m.end, j);
      }
    case None =>
      MarkerIdsComplete(s, i + 1, j);
  }

  /** `id` is the identifier of a marker starting at `j`. */
  predicate IsMarkerId(s: string, j: nat, id: string) {
    j <= |s| && MarkerAt(s, j).Some? && IdAt(s, j) == id
  }

  /** `id` is the identifier of some marker starting at or after `i`. */
  predicate MarkedFrom(s: string, i: nat, id: string) {
    exists j :: i <= j < |s| && IsMarkerId(s, j, id)
  }

  lemma MarkedFromEarlier(s: string, i: nat, i2: nat, id: string)
    requires i <= i2 && MarkedFrom(s, i2, id)
    ensures MarkedFrom(s, i, id)
  {
    var j :| i2 <= j < |s| && IsMarkerId(s, j, id);
    assert i <= j;
  }

  /** Every identifier read from `t` on is that of a marker starting at or after `t`. */
  predicate AllMarkedFrom(s: string, t: nat, ids: seq<string>) {
    forall k :: 0 <= k < |ids| ==> MarkedFrom(s, t, ids[k])
  }

  lemma AllMarkedFromEarlier(s: string, i: nat, i2: nat, ids: seq<string>)
    requires i <= i2 && AllMarkedFrom(s, i2, ids)
    ensures AllMarkedFrom(s, i, ids)
  {
    forall k | 0 <= k < |ids|
      ensures MarkedFrom(s, i, ids[k])
    {
      MarkedFromEarlier(s, i, i2, ids[k]);
    }
  }

  lemma SoundAtMarker(s: string, i: nat)
    requires i < |s| && MarkerAt(s, i).Some?
    requires AllMarkedFrom(s, MarkerAt(s, i).value.end, MarkerIds(s, MarkerAt(s, i).value.end))
    ensures AllMarkedFrom(s, i, MarkerIds(s, i))
  {
    var e := MarkerAt(s, i).value.end;
    var rest := MarkerIds(s, e);
    assert MarkerIds(s, i) == [IdAt(s, i)] + rest;
    AllMarkedFromEarlier(s, i, e, rest);
    assert IsMarkerId(s, i, IdAt(s, i));
  }

  /** Every identifier read is that of a marker starting at or after `i`. */
  lemma {:induction false} MarkerIdsSound(s: string, i: nat)
    requires i <= |s|
    ensures AllMarkedFrom(s, i, MarkerIds(s, i))
    decreases |s| - i
  {
    if i < |s| {
      match MarkerAt(s, i)
      case Some(m) =>
        MarkerIdsSound(s, m.end);
        SoundAtMarker(s, i);
      case None =>
        MarkerIdsSound(s, i + 1);
        AllMarkedFromEarlier(s, i, i + 1, MarkerIds(s, i + 1));
    }
  }

  /** The identifiers come in text order: the first one read from `i` is that of the first marker
      at or after `i`, and reading resumes after that marker. */
  lemma {:induction false} MarkerIdsFirst(s: string, i: nat, j: nat)
    requires i <= j < |s| && MarkerAt(s, j).Some?
    requires forall t :: i <= t < j ==> MarkerAt(s, t).None?
    ensures MarkerIds(s, i) == [IdAt(s, j)] + MarkerIds(s, MarkerAt(s, j).value.end)
    decreases j - i
  {
    if i < j {
      MarkerIdsFirst(s, i + 1, j);
    }
  }

  /** `s.replace(/\[ID:\s*[\w-]+\]/g, '')` on the part of `s` from `i` on. */
  function StripMarkers(s: string, i: nat): string
    requires i <= |s|
    decreases |s| - i
  {
    if i == |s| then []
    else
      match MarkerAt(s, i)
      case Some(m) => StripMarkers(s, m.end)
      case None => [s[i]] + StripMarkers(s, i + 1)
  }

  /** A marker at `i` is removed whole and its identifier recorded. */
  lemma StripAtMarker(s: string, i: nat)
    requires i < |s| && MarkerAt(s, i).Some?
    requires |StripMarkers(s, MarkerAt(s, i).value.end)| + 6 * |MarkerIds(s, MarkerAt(s, i).value.end)|
      <= |s| - MarkerAt(s, i).value.end
    ensures |StripMarkers(s, i)| + 6 * |MarkerIds(s, i)| <= |s| - i
    ensures MarkerIds(s, i) != []
  {
  }

  /** Without a marker at `i` the character is kept and the scan moves on. */
  lemma StripNoMarker(s: string, i: nat)
    requires i < |s| && MarkerAt(s, i).None?
    requires |StripMarkers(s, i + 1)| + 6 * |MarkerIds(s, i + 1)| <= |s| - i - 1
    requires MarkerIds(s, i + 1) == [] ==> StripMarkers(s, i + 1) == s[i + 1..]
    ensures |StripMarkers(s, i)| + 6 * |MarkerIds(s, i)| <= |s| - i
    ensures MarkerIds(s, i) == [] ==> StripMarkers(s, i) == s[i..]
  {
    assert s[i..] == [s[i]] + s[i + 1..];
  }

  /** Each removed marker is at least six characters long ("[ID:" + one identifier character + "]"). */
  lemma {:induction false} StripMarkersLength(s: string, i: nat)
    requires i <= |s|
    ensures |StripMarkers(s, i)| + 6 * |MarkerIds(s, i)| <= |s| - i
    ensures MarkerIds(s, i) == [] ==> StripMarkers(s, i) == s[i..]
    decreases |s| - i
  {
    if i < |s| {
      match MarkerAt(s, i)
      case Some(m) =>
        StripMarkersLength(s, m.end);
        StripAtMarker(s, i);
      case None =>
        StripMarkersLength(s, i + 1);
        StripNoMarker(s, i);
    }
  }

  /** Marker removal leaves a text untouched exactly when the text holds no marker. */
  lemma StripMarkersIdentity(s: string)
    ensures StripMarkers(s, 0) == s <==> MarkerIds(s, 0) == []
  {
    StripMarkersLength(s, 0);
  }

  // ---------------------------------------------------------------------------
  // Catalog lookup (`find` by id)

  /** The index of the first product with the given id. */
  function FindIndex(ps: seq<Product>, id: string): (r: Option<nat>)
    ensures r.Some? ==> r.value < |ps| && ps[r.value].id == id
    ensures r.Some? ==> forall j :: 0 <= j < r.value ==> ps[j].id != id
    ensures r.None? <==> forall j :: 0 <= j < |ps| ==> ps[j].id != id
  {
    if ps == [] then None
    else if ps[0].id == id then Some(0)
    else
      match FindIndex(ps[1..], id)
      case Some(k) => Some(k + 1)
      case None => None
  }

  /** `ps.find(p => p.id === id)`. */
  function FindById(ps: seq<Product>, id: string): (r: Option<Product>)
    ensures r.Some? ==> r.value in ps && r.value.id == id
    ensures r.None? <==> forall j :: 0 <= j < |ps| ==> ps[j].id != id
  {
    match FindIndex(ps, id)
    case Some(k) => Some(ps[k])
    case None => None
  }

  predicate HasId(ps: seq<Product>, id: string) {
    FindById(ps, id).Some?
  }

  /** No two entries share an id. */
  predicate NoDupIds(ps: seq<Product>) {
    forall i, j :: 0 <= i < j < |ps| ==> ps[i].id != ps[j].id
  }

  /** The position of the first occurrence of `x`. */
  function FirstIndex(ids: seq<string>, x: string): (r: nat)
    requires x in ids
    ensures r < |ids| && ids[r] == x
    ensures forall j :: 0 <= j < r ==> ids[j] != x
  {
    if ids[0] == x then 0 else 1 + FirstIndex(ids[1..], x)
  }

  lemma FirstIndexUnique(ids: seq<string>, x: string, r: nat)
    requires r < |ids| && ids[r] == x
    requires forall j :: 0 <= j < r ==> ids[j] != x
    ensures FirstIndex(ids, x) == r
  {
  }

  // ---------------------------------------------------------------------------
  // Resolution of marker identifiers against the catalog

  /** One step of `parseRecommendations`: add the catalog's product for `id` unless there is
      none or an entry with that id was already recommended. */
  function ResolveStep(acc: seq<Product>, id: string, catalog: seq<Product>): seq<Product> {
    match FindById(catalog, id)
    case Some(p) => if HasId(acc, id) then acc else acc + [p]
    case None => acc
  }

  /** The recommendations for a sequence of marker identifiers, processed left to right. */
  function Resolve(ids: seq<string>, catalog: seq<Product>): seq<Product>
    decreases |ids|
  {
    if ids == [] then []
    else ResolveStep(Resolve(ids[..|ids| - 1], catalog), ids[|ids| - 1], catalog)
  }

  /** What the resolver promises: no repeated id; every entry is the catalog's product for an
      identifier of the text; every identifier known to the catalog is represented; and the
      entries are in the order of the identifiers' first occurrences. */
  ghost predicate ResolvesExactly(r: seq<Product>, ids: seq<string>, catalog: seq<Product>) {
    && NoDupIds(r)
    && (forall k :: 0 <= k < |r| ==> r[k].id in ids && FindById(catalog, r[k].id) == Some(r[k]))
    && (forall id :: id in ids && FindById(catalog, id).Some? ==> HasId(r, id))
    && (forall i, j :: 0 <= i < j < |r| ==> FirstIndex(ids, r[i].id) < FirstIndex(ids, r[j].id))
  }

  /** Identifiers that already occurred keep their first position when one more is appended. */
  lemma FirstIndexAppend(pre: seq<string>, x: string, y: string)
    requires y in pre
    ensures y in pre + [x] && FirstIndex(pre + [x], y) == FirstIndex(pre, y)
  {
    FirstIndexUnique(pre + [x], y, FirstIndex(pre, y));
  }

  /** One resolution step keeps `ResolvesExactly` when the identifier is appended. */
  lemma ResolveStepSpec(acc: seq<Product>, pre: seq<string>, x: string, catalog: seq<Product>)
    requires ResolvesExactly(acc, pre, catalog)
    ensures ResolvesExactly(ResolveStep(acc, x, catalog), pre + [x], catalog)
  {
    var ids := pre + [x];
    forall k | 0 <= k < |acc|
      ensures acc[k].id in ids && FirstIndex(ids, acc[k].id) == FirstIndex(pre, acc[k].id)
    {
      FirstIndexAppend(pre, x, acc[k].id);
    }
    if FindById(catalog, x).Some? && !HasId(acc, x) {
      ResolveStepAdds(acc, pre, x, catalog);
    } else {
      assert ResolveStep(acc, x, catalog) == acc;
      forall id | id in ids && FindById(catalog, id).Some?
        ensures HasId(acc, id)
      {
        if id != x {
          assert id in pre;
        }
      }
    }
  }

  /** Appending a newly seen product keeps the ids distinct and in first-occurrence order. */
  lemma AppendKeepsOrder(acc: seq<Product>, pre: seq<string>, x: string, p: Product)
    requires NoDupIds(acc) && p.id == x && x !in pre && !HasId(acc, x)
    requires forall k :: 0 <= k < |acc| ==> acc[k].id in pre
    requires forall i, j :: 0 <= i < j < |acc| ==> FirstIndex(pre, acc[i].id) < FirstIndex(pre, acc[j].id)
    requires forall k :: 0 <= k < |acc| ==>
      acc[k].id in pre + [x] && FirstIndex(pre + [x], acc[k].id) == FirstIndex(pre, acc[k].id)
    ensures NoDupIds(acc + [p])
    ensures forall i, j :: 0 <= i < j < |acc + [p]| ==>
      FirstIndex(pre + [x], (acc + [p])[i].id) < FirstIndex(pre + [x], (acc + [p])[j].id)
  {
    var ids := pre + [x];
    var r := acc + [p];
    FirstIndexUnique(ids, x, |pre|);
    forall i, j | 0 <= i < j < |r|
      ensures FirstIndex(ids, r[i].id) < FirstIndex(ids, r[j].id)
    {
      assert r[i] == acc[i];
      if j < |acc| {
        assert r[j] == acc[j];
      }
    }
    forall i, j | 0 <= i < j < |r|
      ensures r[i].id != r[j].id
    {
      assert FirstIndex(ids, r[i].id) < FirstIndex(ids, r[j].id);
    }
  }

  /** Appending the catalog's product for a new identifier keeps every entry a catalog product
      for an identifier of the text. */
  lemma AppendKeepsEntries(acc: seq<Product>, pre: seq<string>, x: string, p: Product, catalog: seq<Product>)
    requires forall k :: 0 <= k < |acc| ==> acc[k].id in pre && FindById(catalog, acc[k].id) == Some(acc[k])
    requires FindById(catalog, x) == Some(p)
    ensures forall k :: 0 <= k < |acc + [p]| ==>
      (acc + [p])[k].id in pre + [x] && FindById(catalog, (acc + [p])[k].id) == Some((acc + [p])[k])
  {
    var r := acc + [p];
    forall k | 0 <= k < |r|
      ensures r[k].id in pre + [x] && FindById(catalog, r[k].id) == Some(r[k])
    {
      if k < |acc| {
        assert r[k] == acc[k];
      }
    }
  }

  /** Appending the product for a new identifier keeps every known identifier represented. */
  lemma AppendKeepsCoverage(acc: seq<Product>, pre: seq<string>, x: string, p: Product, catalog: seq<Product>)
    requires forall id :: id in pre && FindById(catalog, id).Some? ==> HasId(acc, id)
    requires p.id == x
    ensures forall id :: id in pre + [x] && FindById(catalog, id).Some? ==> HasId(acc + [p], id)
  {
    var r := acc + [p];
    forall id | id in pre + [x] && FindById(catalog, id).Some?
      ensures HasId(r, id)
    {
      if id == x {
        assert r[|acc|].id == x;
      } else {
        assert id in pre;
        var k := FindIndex(acc, id).value;
        assert r[k] == acc[k];
      }
    }
  }

  /** The step that appends a newly seen product. */
  lemma ResolveStepAdds(acc: seq<Product>, pre: seq<string>, x: string, catalog: seq<Product>)
    requires ResolvesExactly(acc, pre, catalog)
    requires FindById(catalog, x).Some? && !HasId(acc, x)
    requires forall k :: 0 <= k < |acc| ==>
      acc[k].id in pre + [x] && FirstIndex(pre + [x], acc[k].id) == FirstIndex(pre, acc[k].id)
    ensures ResolvesExactly(ResolveStep(acc, x, catalog), pre + [x], catalog)
  {
    var p := FindById(catalog, x).value;
    assert ResolveStep(acc, x, catalog) == acc + [p];
    assert x !in pre;
    AppendKeepsOrder(acc, pre, x, p);
    AppendKeepsEntries(acc, pre, x, p, catalog);
    AppendKeepsCoverage(acc, pre, x, p, catalog);
  }

  lemma {:induction false} ResolveSpec(ids: seq<string>, catalog: seq<Product>)
    ensures ResolvesExactly(Resolve(ids, catalog), ids, catalog)
    decreases |ids|
  {
    if ids != [] {
      var n := |ids| - 1;
      assert ids == ids[..n] + [ids[n]];
      ResolveSpec(ids[..n], catalog);
      ResolveStepSpec(Resolve(ids[..n], catalog), ids[..n], ids[n], catalog);
    }
  }

  /** A text without markers recommends nothing. */
  lemma NoMarkersNoRecommendations(text: string, catalog: seq<Product>)
    requires MarkerIds(text, 0) == []
    ensures Resolve(MarkerIds(text, 0), catalog) == []
  {
  }

  /** `parseRecommendations`: walk the markers of `text` in order and collect, once each, the
      catalog products they name. */
  method ParseRecommendations(text: string, allProducts: seq<Product>) returns (recommended: seq<Product>)
    ensures recommended == Resolve(MarkerIds(text, 0), allProducts)
    ensures ResolvesExactly(recommended, MarkerIds(text, 0), allProducts)
  {
    var matches := MarkerIds(text, 0);
    recommended := [];
    var i := 0;
    while i < |matches|
      invariant 0 <= i <= |matches|
      invariant recommended == Resolve(matches[..i], allProducts)
    {
      var id := matches[i];
      var product := FindById(allProducts, id);
      if product.Some? && !HasId(recommended, id) {
        recommended := recommended + [product.value];
      }
      assert matches[..i + 1][..i] == matches[..i];
      i := i + 1;
    }
    assert matches[..i] == matches;
    ResolveSpec(matches, allProducts);
  }

  // ---------------------------------------------------------------------------
  // Inventory context sent with each request

  const NoItemsText := "No items currently listed in the store."

  /** One catalog line: `[ID: id] name - KES price in location`. */
  function ContextLine(p: Product): string {
    "[ID: " + p.id + "] " + p.name + " - KES " + IntToString(p.price) + " in " + p.location
  }

  function ContextLines(ps: seq<Product>): (lines: seq<string>)
    ensures |lines| == |ps|
    ensures forall k :: 0 <= k < |ps| ==> lines[k] == ContextLine(ps[k])
  {
    seq(|ps|, k requires 0 <= k < |ps| => ContextLine(ps[k]))
  }

  /** The serialised inventory: the sentinel for an empty catalog, else one line per product. */
  function InventoryContext(ps: seq<Product>): string {
    if |ps| > 0 then Join(ContextLines(ps), '\n') else NoItemsText
  }

  /** Fields free of line breaks. */
  predicate SingleLine(p: Product) {
    '\n' !in p.id && '\n' !in p.name && '\n' !in p.location
  }

  /** Reading the context back line by line gives one line per product, in catalog order. */
  lemma InventoryContextLines(ps: seq<Product>)
    requires |ps| > 0
    requires forall k :: 0 <= k < |ps| ==> SingleLine(ps[k])
    ensures Split(InventoryContext(ps), '\n') == ContextLines(ps)
  {
    var lines := ContextLines(ps);
    forall k | 0 <= k < |lines| ensures '\n' !in lines[k] {
      ContextLineSingle(ps[k]);
    }
    SplitJoin(lines, '\n');
  }

  /** A product whose text fields hold no line break gives one line of context. */
  lemma ContextLineSingle(p: Product)
    requires SingleLine(p)
    ensures '\n' !in ContextLine(p)
  {
    assert ContextLine(p) == "[ID: " + p.id + "] " + p.name + " - KES " + IntToString(p.price) + " in " + p.location;
  }

  /** An empty catalog is serialised as the sentinel, which names no product. */
  lemma EmptyInventoryContext()
    ensures InventoryContext([]) == NoItemsText
    ensures MarkerIds(NoItemsText, 0) == []
  {
    var s := NoItemsText;
    assert forall k :: 0 <= k < |s| ==> s[k] != '[';
    NoMarkerFrom(s, 0);
  }

  lemma {:induction false} NoMarkerFrom(s: string, i: nat)
    requires i <= |s|
    requires forall k :: i <= k < |s| ==> s[k] != '['
    ensures MarkerIds(s, i) == []
    decreases |s| - i
  {
    if i < |s| {
      if i + 4 <= |s| {
        assert s[i..i + 4][0] == s[i];
      }
      NoMarkerFrom(s, i + 1);
    }
  }

  /** A text opening with `[ID: `, an identifier and `]` has a marker at its start. */
  lemma MarkerAtStart(id: string, rest: string)
    requires IsIdentifier(id) && |rest| > 0 && rest[0] == ']'
    ensures MarkerAt("[ID: " + id + rest, 0) == Some(MarkerMatch(5, 5 + |id|, 6 + |id|))
  {
    var s := "[ID: " + id + rest;
    var n := |id|;
    assert s[..4] == "[ID:";
    assert s[4] == ' ';
    assert s[5 + n] == ']';
    RunEndUnique(s, 4, IsSpace, 5) by {
      assert s[5] == id[0];
    }
    RunEndUnique(s, 5, IsIdChar, 5 + n) by {
      forall k | 5 <= k < 5 + n ensures IsIdChar(s[k]) {
        assert s[k] == id[k - 5];
      }
    }
  }

  /** The line written for a product whose id is a valid identifier starts with a marker that
      the reply scanner reads back as that id. */
  lemma ContextLineMarker(p: Product)
    requires IsIdentifier(p.id)
    ensures var ids := MarkerIds(ContextLine(p), 0); |ids| > 0 && ids[0] == p.id
  {
    var rest := "] " + p.name + " - KES " + IntToString(p.price) + " in " + p.location;
    var s := ContextLine(p);
    assert s == "[ID: " + p.id + rest;
    MarkerAtStart(p.id, rest);
    assert s[5..5 + |p.id|] == p.id;
  }
}
