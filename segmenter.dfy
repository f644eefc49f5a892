/** The chat page's `formatText`/`processLine`: a reply, with its entity markers removed, is cut
    into lines and each line classified as blank, heading, list item or paragraph; list items
    and paragraphs are cut into plain, emphasis and currency spans. The result is a
    render-independent value instead of markup. */
module Segmenter {
  import opened Wrappers
  import opened Text
  import opened Recommendations

  datatype Span = Plain(text: string) | Emphasis(text: string) | Currency(text: string)

  datatype Block = Blank | Heading(text: string) | ListItem(spans: seq<Span>) | Paragraph(spans: seq<Span>)

  // ---------------------------------------------------------------------------
  // The inline pattern `(\*\*.*?\*\*|KES\s?\d+(?:,\d+)*)`

  /** The lazy `.*?\*\*` from `m`: the first `**` reached without crossing a line terminator. */
  function CloseAt(s: string, m: nat): (e: Option<nat>)
    requires m <= |s|
    ensures e.Some? ==> m + 2 <= e.value <= |s| && s[e.value - 2] == '*' && s[e.value - 1] == '*'
    ensures e.Some? ==> forall k :: m <= k < e.value - 2 ==> !IsLineTerminator(s[k])
    decreases |s| - m
  {
    if m + 2 <= |s| && s[m] == '*' && s[m + 1] == '*' then Some(m + 2)
    else if m < |s| && !IsLineTerminator(s[m]) then CloseAt(s, m + 1)
    else None
  }

  /** `\*\*.*?\*\*` at `q`: the end of the emphasis match, if any. */
  function EmphasisAt(s: string, q: nat): (e: Option<nat>)
    requires q <= |s|
    ensures e.Some? ==> q + 4 <= e.value <= |s|
    ensures e.Some? ==> s[q] == '*' && s[q + 1] == '*' && s[e.value - 2] == '*' && s[e.value - 1] == '*'
  {
    if q + 2 <= |s| && s[q] == '*' && s[q + 1] == '*' then CloseAt(s, q + 2) else None
  }

  /** `(?:,\d+)*` from `e`, greedy. */
  function GroupsEnd(s: string, e: nat): (r: nat)
    requires e <= |s|
    ensures e <= r <= |s|
    decreases |s| - e
  {
    if e + 1 < |s| && s[e] == ',' && IsDigit(s[e + 1]) then GroupsEnd(s, RunEnd(s, e + 1, IsDigit)) else e
  }

  /** `KES\s?\d+` begins at `t` (the test the renderer applies to each part). */
  predicate KesAt(s: string, t: nat) {
    && t + 3 < |s| && s[t] == 'K' && s[t + 1] == 'E' && s[t + 2] == 'S'
    && (IsDigit(s[t + 3]) || (t + 4 < |s| && IsSpace(s[t + 3]) && IsDigit(s[t + 4])))
  }

  /** `KES\s?\d+(?:,\d+)*` at `q`: the optional white space is taken only when a digit follows. */
  function CurrencyAt(s: string, q: nat): (e: Option<nat>)
    requires q <= |s|
    ensures e.Some? <==> KesAt(s, q)
    ensures e.Some? ==> q + 4 <= e.value <= |s|
    ensures e.Some? ==> (IsDigit(s[q + 3]) || q + 5 <= e.value)
  {
    if q + 3 <= |s| && s[q] == 'K' && s[q + 1] == 'E' && s[q + 2] == 'S' then
      var d := if q + 4 < |s| && IsSpace(s[q + 3]) && IsDigit(s[q + 4]) then q + 4 else q + 3;
      if d < |s| && IsDigit(s[d]) then Some(GroupsEnd(s, RunEnd(s, d, IsDigit))) else None
    else
      None
  }

  /** The alternation: emphasis is tried first, then currency. */
  function MatchAt(s: string, q: nat): (e: Option<nat>)
    requires q <= |s|
    ensures e.Some? ==> q + 4 <= e.value <= |s|
  {
    match EmphasisAt(s, q)
    case Some(e) => Some(e)
    case None => CurrencyAt(s, q)
  }

  /** The lazy close: no `**` lies between `m` and the `**` that closes the match. */
  lemma {:induction false} CloseAtFirst(s: string, m: nat)
    requires m <= |s|
    ensures CloseAt(s, m).Some? ==>
      forall k :: m <= k < CloseAt(s, m).value - 2 ==> !(s[k] == '*' && s[k + 1] == '*')
    decreases |s| - m
  {
    if !(m + 2 <= |s| && s[m] == '*' && s[m + 1] == '*') && m < |s| && !IsLineTerminator(s[m]) {
      CloseAtFirst(s, m + 1);
    }
  }

  /** A `**` reached from `m` without crossing a line terminator closes the match, at the latest. */
  lemma {:induction false} CloseAtFound(s: string, m: nat, k: nat)
    requires m <= k && k + 2 <= |s| && s[k] == '*' && s[k + 1] == '*'
    requires forall j :: m <= j < k ==> !IsLineTerminator(s[j])
    ensures CloseAt(s, m).Some? && CloseAt(s, m).value <= k + 2
    decreases k - m
  {
    if !(m + 2 <= |s| && s[m] == '*' && s[m + 1] == '*') {
      CloseAtFound(s, m + 1, k);
    }
  }

  /** An emphasis match closes at the first `**` after the opening one. */
  lemma EmphasisAtLazy(s: string, q: nat)
    requires q <= |s|
    ensures EmphasisAt(s, q).Some? ==>
      forall k :: q + 2 <= k < EmphasisAt(s, q).value - 2 ==> !(s[k] == '*' && s[k + 1] == '*')
  {
    if q + 2 <= |s| && s[q] == '*' && s[q + 1] == '*' {
      CloseAtFirst(s, q + 2);
    }
  }

  /** An opening `**` followed on the same line by another `**` is an emphasis match. */
  lemma EmphasisAtFound(s: string, q: nat, k: nat)
    requires q + 2 <= k && k + 2 <= |s|
    requires s[q] == '*' && s[q + 1] == '*' && s[k] == '*' && s[k + 1] == '*'
    requires forall j :: q + 2 <= j < k ==> !IsLineTerminator(s[j])
    ensures EmphasisAt(s, q).Some? && EmphasisAt(s, q).value <= k + 2
  {
    CloseAtFound(s, q + 2, k);
  }

  /** `s[a..b]` is made of digits and commas, each comma followed by a digit, ending in a digit. */
  predicate CommaDigits(s: string, a: nat, b: nat)
    requires a <= b <= |s|
  {
    && (forall k :: a <= k < b ==> IsDigit(s[k]) || s[k] == ',')
    && (forall k :: a <= k < b && s[k] == ',' ==> k + 1 < b && IsDigit(s[k + 1]))
    && (a < b ==> IsDigit(s[b - 1]))
  }

  /** `(?:,\d+)*` takes comma-then-digits groups and stops only where no further group follows;
      after a digit run, it stops where no digit follows either. */
  lemma {:induction false} GroupsEndSpec(s: string, e: nat)
    requires e <= |s|
    ensures CommaDigits(s, e, GroupsEnd(s, e))
    ensures e < GroupsEnd(s, e) ==> s[e] == ','
    ensures var r := GroupsEnd(s, e); !(r + 1 < |s| && s[r] == ',' && IsDigit(s[r + 1]))
    ensures (e == |s| || !IsDigit(s[e])) ==> (GroupsEnd(s, e) == |s| || !IsDigit(s[GroupsEnd(s, e)]))
    decreases |s| - e
  {
    if e + 1 < |s| && s[e] == ',' && IsDigit(s[e + 1]) {
      var d := RunEnd(s, e + 1, IsDigit);
      GroupsEndSpec(s, d);
      var r := GroupsEnd(s, d);
      assert GroupsEnd(s, e) == r;
      assert e + 2 <= d;
      forall k | e <= k < r
        ensures IsDigit(s[k]) || s[k] == ','
        ensures s[k] == ',' ==> k + 1 < r && IsDigit(s[k + 1])
      {
        if k < d && k != e {
          assert IsDigit(s[k]);
        }
      }
    }
  }

  /** `\d+(?:,\d+)*` from a digit at `d`: a digit run, then every comma-then-digits group; it ends
      in a digit, and neither a digit nor a further group follows it. */
  lemma DigitGroupsSpec(s: string, d: nat)
    requires d < |s| && IsDigit(s[d])
    ensures var e := GroupsEnd(s, RunEnd(s, d, IsDigit));
      && d < e && CommaDigits(s, d, e)
      && !(e < |s| && IsDigit(s[e]))
      && !(e + 1 < |s| && s[e] == ',' && IsDigit(s[e + 1]))
  {
    var j := RunEnd(s, d, IsDigit);
    GroupsEndSpec(s, j);
    var e := GroupsEnd(s, j);
    forall k | d <= k < e
      ensures IsDigit(s[k]) || s[k] == ','
      ensures s[k] == ',' ==> k + 1 < e && IsDigit(s[k + 1])
    {
      if k < j {
        assert IsDigit(s[k]);
      }
    }
  }

  /** A currency match is the digits after `KES` and the optional white space, then every
      following comma-then-digits group; it ends in a digit, and neither a digit nor a further
      group follows it. */
  lemma CurrencyAtExtent(s: string, q: nat)
    requires q <= |s|
    ensures CurrencyAt(s, q).Some? ==>
      var e := CurrencyAt(s, q).value;
      var d := if IsDigit(s[q + 3]) then q + 3 else q + 4;
      && d < e && IsDigit(s[d]) && CommaDigits(s, d, e)
      && !(e < |s| && IsDigit(s[e]))
      && !(e + 1 < |s| && s[e] == ',' && IsDigit(s[e + 1]))
  {
    if KesAt(s, q) {
      var d := if IsDigit(s[q + 3]) then q + 3 else q + 4;
      assert CurrencyAt(s, q) == Some(GroupsEnd(s, RunEnd(s, d, IsDigit)));
      DigitGroupsSpec(s, d);
    }
  }

  // ---------------------------------------------------------------------------
  // `split` with a capturing pattern

  /** A piece of the line: `s[start..end]`, either a match of the pattern or the text between matches. */
  datatype Cut = Cut(start: nat, end: nat, matched: bool)

  /** `cs` covers `s[p..]` contiguously, alternating between unmatched text (even positions)
      and matches of the pattern (odd positions), beginning and ending with unmatched text. */
  predicate Tiled(s: string, cs: seq<Cut>, p: nat) {
    && |cs| % 2 == 1
    && cs[0].start == p && cs[|cs| - 1].end == |s|
    && (forall k :: 0 <= k < |cs| ==> cs[k].start <= cs[k].end <= |s|)
    && (forall k :: 0 <= k < |cs| - 1 ==> cs[k].end == cs[k + 1].start)
    && (forall k :: 0 <= k < |cs| ==> (cs[k].matched <==> k % 2 == 1))
    && (forall k :: 0 <= k < |cs| && cs[k].matched ==> MatchAt(s, cs[k].start) == Some(cs[k].end))
  }

  lemma TiledCons(s: string, p: nat, q: nat, e: nat, tail: seq<Cut>)
    requires p <= q <= |s| && MatchAt(s, q) == Some(e) && Tiled(s, tail, e)
    ensures Tiled(s, [Cut(p, q, false), Cut(q, e, true)] + tail, p)
  {
    var cs := [Cut(p, q, false), Cut(q, e, true)] + tail;
    forall k | 2 <= k < |cs| ensures cs[k] == tail[k - 2] { }
    assert cs[2] == tail[0] && cs[|cs| - 1] == tail[|tail| - 1];
    forall k | 0 <= k < |cs| - 1 ensures cs[k].end == cs[k + 1].start {
      if k >= 2 {
        assert cs[k + 1] == tail[k - 1];
      }
    }
    forall k | 0 <= k < |cs| ensures (cs[k].matched <==> k % 2 == 1) {
      if k >= 2 {
        assert tail[k - 2].matched <==> (k - 2) % 2 == 1;
      }
    }
    forall k | 0 <= k < |cs| && cs[k].matched ensures MatchAt(s, cs[k].start) == Some(cs[k].end) {
      if k >= 2 {
        assert tail[k - 2].matched;
      }
    }
  }

  /** The pieces of `String.prototype.split` with the capturing pattern, following its loop:
      `p` is the end of the last match and `q` the position being tried. */
  function Cuts(s: string, p: nat, q: nat): seq<Cut>
    requires p <= q <= |s|
    decreases |s| - q
  {
    if q == |s| then [Cut(p, |s|, false)]
    else
      match MatchAt(s, q)
      case Some(e) => [Cut(p, q, false), Cut(q, e, true)] + Cuts(s, e, e)
      case None => Cuts(s, p, q + 1)
  }

  /** The split's pieces tile the rest of the line, alternating between gaps and matches. */
  lemma {:induction false} CutsTiled(s: string, p: nat, q: nat)
    requires p <= q <= |s|
    ensures Tiled(s, Cuts(s, p, q), p)
    decreases |s| - q
  {
    if q < |s| {
      match MatchAt(s, q)
      case Some(e) =>
        CutsTiled(s, e, e);
        TiledCons(s, p, q, e, Cuts(s, e, e));
      case None =>
        CutsTiled(s, p, q + 1);
    }
  }

  /** No match of the pattern starts in `[a, b)`. */
  predicate NoMatchIn(s: string, a: nat, b: nat) {
    b <= |s| && forall t :: a <= t < b ==> MatchAt(s, t).None?
  }

  /** No match starts anywhere inside an unmatched piece. */
  predicate GapsClean(s: string, cs: seq<Cut>) {
    forall k :: 0 <= k < |cs| && !cs[k].matched ==> NoMatchIn(s, cs[k].start, cs[k].end)
  }

  /** A clean gap followed by a match keeps the pieces after it clean. */
  lemma GapsCleanCons(s: string, p: nat, q: nat, e: nat, tail: seq<Cut>)
    requires NoMatchIn(s, p, q) && GapsClean(s, tail)
    ensures GapsClean(s, [Cut(p, q, false), Cut(q, e, true)] + tail)
  {
    var cs := [Cut(p, q, false), Cut(q, e, true)] + tail;
    forall k | 0 <= k < |cs| && !cs[k].matched ensures NoMatchIn(s, cs[k].start, cs[k].end) {
      if k >= 2 {
        assert cs[k] == tail[k - 2];
      }
    }
  }

  /** At a match the split emits the text before it, the match, and then splits the rest; the
      pieces stay clean when the text before the match is. */
  lemma LeftmostAtMatch(s: string, p: nat, q: nat, e: nat)
    requires p <= q < |s| && MatchAt(s, q) == Some(e) && NoMatchIn(s, p, q)
    requires GapsClean(s, Cuts(s, e, e))
    ensures GapsClean(s, Cuts(s, p, q))
  {
    assert Cuts(s, p, q) == [Cut(p, q, false), Cut(q, e, true)] + Cuts(s, e, e);
    GapsCleanCons(s, p, q, e, Cuts(s, e, e));
  }

  /** Where nothing matches, the split moves on to the next position. */
  lemma LeftmostSkip(s: string, p: nat, q: nat)
    requires p <= q < |s| && MatchAt(s, q).None? && NoMatchIn(s, p, q)
    ensures NoMatchIn(s, p, q + 1)
    ensures Cuts(s, p, q) == Cuts(s, p, q + 1)
  {
  }

  /** The leftmost match wins: the split skips no position where the pattern matches. */
  lemma {:induction false} CutsLeftmost(s: string, p: nat, q: nat)
    requires p <= q <= |s| && NoMatchIn(s, p, q)
    ensures GapsClean(s, Cuts(s, p, q))
    decreases |s| - q
  {
    if q < |s| {
      match MatchAt(s, q)
      case Some(e) =>
        CutsLeftmost(s, e, e);
        LeftmostAtMatch(s, p, q, e);
      case None =>
        LeftmostSkip(s, p, q);
        CutsLeftmost(s, p, q + 1);
    }
  }

  /** Where the pattern never matches, the whole remainder is one unmatched piece. */
  lemma {:induction false} CutsNoMatch(s: string, p: nat, q: nat)
    requires p <= q <= |s|
    requires forall t :: q <= t < |s| ==> MatchAt(s, t).None?
    ensures Cuts(s, p, q) == [Cut(p, |s|, false)]
    decreases |s| - q
  {
    if q < |s| {
      CutsNoMatch(s, p, q + 1);
    }
  }

  /** The strings of a sequence of pieces. */
  function Slices(s: string, cs: seq<Cut>): (r: seq<string>)
    requires forall k :: 0 <= k < |cs| ==> cs[k].start <= cs[k].end <= |s|
    ensures |r| == |cs|
    ensures forall k :: 0 <= k < |cs| ==> r[k] == s[cs[k].start..cs[k].end]
  {
    if cs == [] then [] else [s[cs[0].start..cs[0].end]] + Slices(s, cs[1..])
  }

  function Concat(parts: seq<string>): string {
    if parts == [] then [] else parts[0] + Concat(parts[1..])
  }

  /** The cuts follow each other from `a` to the end of `s`. */
  predicate Chained(s: string, cs: seq<Cut>, a: nat)
    decreases |cs|
  {
    && |cs| >= 1 && cs[0].start == a && a <= cs[0].end <= |s|
    && (if |cs| == 1 then cs[0].end == |s| else Chained(s, cs[1..], cs[0].end))
  }

  lemma {:induction false} ChainedOfAdjacent(s: string, cs: seq<Cut>, a: nat)
    requires |cs| >= 1 && cs[0].start == a && cs[|cs| - 1].end == |s|
    requires forall k :: 0 <= k < |cs| ==> cs[k].start <= cs[k].end <= |s|
    requires forall k :: 0 <= k < |cs| - 1 ==> cs[k].end == cs[k + 1].start
    ensures Chained(s, cs, a)
    decreases |cs|
  {
    if |cs| > 1 {
      var tail := cs[1..];
      forall k | 0 <= k < |tail| - 1
        ensures tail[k].end == tail[k + 1].start
      {
        assert tail[k] == cs[k + 1];
      }
      ChainedOfAdjacent(s, tail, cs[0].end);
    }
  }

  lemma {:induction false} ConcatChained(s: string, cs: seq<Cut>, a: nat)
    requires forall k :: 0 <= k < |cs| ==> cs[k].start <= cs[k].end <= |s|
    requires Chained(s, cs, a)
    ensures Concat(Slices(s, cs)) == s[a..]
    decreases |cs|
  {
    var parts := Slices(s, cs);
    assert parts[1..] == Slices(s, cs[1..]);
    if |cs| > 1 {
      ConcatChained(s, cs[1..], cs[0].end);
      assert s[a..] == s[a..cs[0].end] + s[cs[0].end..];
    }
  }

  lemma ConcatSlices(s: string, cs: seq<Cut>, a: nat)
    requires |cs| >= 1 && cs[0].start == a && cs[|cs| - 1].end == |s|
    requires forall k :: 0 <= k < |cs| ==> cs[k].start <= cs[k].end <= |s|
    requires forall k :: 0 <= k < |cs| - 1 ==> cs[k].end == cs[k + 1].start
    ensures Concat(Slices(s, cs)) == s[a..]
  {
    ChainedOfAdjacent(s, cs, a);
    ConcatChained(s, cs, a);
  }

  /** `content.split(/(\*\*.*?\*\*|KES\s?\d+(?:,\d+)*)/g)`. */
  function Parts(s: string): (parts: seq<string>)
    ensures |parts| % 2 == 1
    ensures Concat(parts) == s
  {
    var cs := Cuts(s, 0, 0);
    CutsTiled(s, 0, 0);
    ConcatSlices(s, cs, 0);
    Slices(s, cs)
  }

  // ---------------------------------------------------------------------------
  // Spans

  /** `part.slice(2, -2)`. */
  function SliceInner(part: string): string {
    if |part| >= 4 then part[2..|part| - 2] else []
  }

  /** The first index from `t` at which `KES\s?\d+` matches. */
  function KesIndex(s: string, t: nat): (r: Option<nat>)
    ensures r.Some? ==> t <= r.value && KesAt(s, r.value)
    ensures r.Some? ==> forall k :: t <= k < r.value ==> !KesAt(s, k)
    ensures r.None? ==> forall k :: t <= k < |s| ==> !KesAt(s, k)
    decreases |s| - t
  {
    if t >= |s| then None else if KesAt(s, t) then Some(t) else KesIndex(s, t + 1)
  }

  /** `/KES\s?\d+/.test(part)`. */
  predicate HasCurrency(part: string) {
    KesIndex(part, 0).Some?
  }

  /** How the renderer shows one part of the split. */
  function Classify(part: string): Span {
    if StartsWith(part, "**") && EndsWith(part, "**") then Emphasis(SliceInner(part))
    else if HasCurrency(part) then Currency(part)
    else Plain(part)
  }

  /** `processLine`. */
  function ProcessLine(content: string): (spans: seq<Span>)
    ensures |spans| == |Parts(content)|
    ensures forall k :: 0 <= k < |spans| ==> spans[k] == Classify(Parts(content)[k])
  {
    var parts := Parts(content);
    seq(|parts|, k requires 0 <= k < |parts| => Classify(parts[k]))
  }

  /** How a match shows: emphasis delimiters come in pairs and are removed, and an amount is
      kept verbatim. */
  predicate ShowsMatch(part: string, span: Span) {
    if StartsWith(part, "**") then
      |part| >= 4 && EndsWith(part, "**") && span == Emphasis(part[2..|part| - 2])
    else
      StartsWith(part, "KES") && span == Currency(part)
  }

  /** How unmatched text shows: never as an amount; as emphasis of its inner text when it happens
      to begin and end with `**` (a lone `**` left after a match, or an emphasis cut off by a line
      terminator), and as itself otherwise. */
  predicate ShowsGap(part: string, span: Span) {
    && !span.Currency?
    && span == (if StartsWith(part, "**") && EndsWith(part, "**") then Emphasis(SliceInner(part)) else Plain(part))
  }

  /** Where the pattern matches in `**x****`: only at 0, up to 5. */
  lemma TrailingStarsMatches()
    ensures MatchAt("**x****", 0) == Some(5)
    ensures MatchAt("**x****", 5).None? && MatchAt("**x****", 6).None?
  {
    var s := "**x****";
    assert CloseAt(s, 3) == Some(5);
    assert CloseAt(s, 7).None?;
  }

  lemma TrailingStarsCuts()
    ensures Cuts("**x****", 0, 0) == [Cut(0, 0, false), Cut(0, 5, true), Cut(5, 7, false)]
  {
    TrailingStarsMatches();
    var s := "**x****";
    assert Cuts(s, 5, 6) == [Cut(5, 7, false)];
  }

  lemma TrailingStarsParts()
    ensures Parts("**x****") == ["", "**x**", "**"]
  {
    var s := "**x****";
    TrailingStarsCuts();
    var parts := Slices(s, [Cut(0, 0, false), Cut(0, 5, true), Cut(5, 7, false)]);
    assert parts[0] == "" && parts[1] == "**x**" && parts[2] == "**";
    assert parts == ["", "**x**", "**"];
  }

  lemma TrailingStarsSpans()
    ensures Classify("") == Plain("")
    ensures Classify("**x**") == Emphasis("x")
    ensures Classify("**") == Emphasis("")
  {
    assert KesIndex("", 0).None?;
    assert "**x**"[..2] == "**" && "**x**"[3..] == "**";
  }

  /** The split of `**x****` leaves the trailing `**` unmatched, and it shows as an empty emphasis. */
  lemma TrailingStarsGapIsEmphasis()
    ensures Parts("**x****") == ["", "**x**", "**"]
    ensures ProcessLine("**x****") == [Plain(""), Emphasis("x"), Emphasis("")]
  {
    TrailingStarsParts();
    TrailingStarsSpans();
  }

  lemma MatchedSpan(s: string, q: nat, e: nat)
    requires q <= |s| && MatchAt(s, q) == Some(e)
    ensures ShowsMatch(s[q..e], Classify(s[q..e]))
  {
    var part := s[q..e];
    if EmphasisAt(s, q).Some? {
      assert part[..2] == "**";
      assert part[|part| - 2..] == "**";
    } else {
      assert KesAt(s, q);
      assert part[..3] == "KES";
      assert KesAt(part, 0);
    }
  }

  /** `KES\s?\d+` at `u` makes the whole pattern match there. */
  lemma KesMatches(s: string, u: nat)
    requires u <= |s| && KesAt(s, u)
    ensures MatchAt(s, u).Some?
  {
    assert EmphasisAt(s, u).None?;
  }

  lemma GapSpan(s: string, a: nat, b: nat)
    requires a <= b && NoMatchIn(s, a, b)
    ensures ShowsGap(s[a..b], Classify(s[a..b]))
  {
    var gap := s[a..b];
    if HasCurrency(gap) {
      var t := KesIndex(gap, 0).value;
      assert KesAt(gap, t);
      assert gap[t] == s[a + t] && gap[t + 1] == s[a + t + 1] && gap[t + 2] == s[a + t + 2];
      assert gap[t + 3] == s[a + t + 3];
      if t + 4 < |gap| {
        assert gap[t + 4] == s[a + t + 4];
      }
      KesMatches(s, a + t);
      assert false;
    }
  }

  /** What a line's spans are: one per part of the split, the parts concatenating back to the
      line and alternating between unmatched text and matches, each shown as described above. */
  lemma ProcessLineSpec(content: string)
    ensures var parts := Parts(content); var spans := ProcessLine(content);
      && |spans| == |parts| && |parts| % 2 == 1
      && Concat(parts) == content
      && forall k :: 0 <= k < |parts| ==>
           if k % 2 == 1 then ShowsMatch(parts[k], spans[k]) else ShowsGap(parts[k], spans[k])
  {
    var cs := Cuts(content, 0, 0);
    var parts := Parts(content);
    CutsTiled(content, 0, 0);
    CutsLeftmost(content, 0, 0);
    forall k | 0 <= k < |parts|
      ensures if k % 2 == 1 then ShowsMatch(parts[k], ProcessLine(content)[k])
              else ShowsGap(parts[k], ProcessLine(content)[k])
    {
      assert parts[k] == content[cs[k].start..cs[k].end];
      if k % 2 == 1 {
        MatchedSpan(content, cs[k].start, cs[k].end);
      } else {
        GapSpan(content, cs[k].start, cs[k].end);
      }
    }
  }

  /** No `**` and no `KES` anywhere. */
  predicate NoInlineMarkup(s: string) {
    forall t :: 0 <= t < |s| ==>
      && !(t + 1 < |s| && s[t] == '*' && s[t + 1] == '*')
      && !(t + 2 < |s| && s[t] == 'K' && s[t + 1] == 'E' && s[t + 2] == 'S')
  }

  lemma PlainClassify(s: string)
    requires NoInlineMarkup(s)
    ensures Classify(s) == Plain(s)
  {
    assert forall t :: 0 <= t < |s| ==> !KesAt(s, t);
    assert !HasCurrency(s);
    assert !StartsWith(s, "**") by {
      if |s| >= 2 {
        assert !(s[0] == '*' && s[1] == '*');
      }
    }
  }

  lemma PlainParts(s: string)
    requires NoInlineMarkup(s)
    ensures Parts(s) == [s]
  {
    forall t | 0 <= t < |s| ensures MatchAt(s, t).None? {
      assert EmphasisAt(s, t).None?;
    }
    CutsNoMatch(s, 0, 0);
    assert s[0..|s|] == s;
  }

  /** Text without emphasis or currency is one plain span equal to the text. */
  lemma ProcessLinePlain(s: string)
    requires NoInlineMarkup(s)
    ensures ProcessLine(s) == [Plain(s)]
  {
    PlainParts(s);
    PlainClassify(s);
  }

  lemma {:induction false} CloseScan(s: string, m: nat, close: nat)
    requires m <= close && close + 2 == |s| && s[close] == '*' && s[close + 1] == '*'
    requires forall k :: m <= k < close ==> s[k] != '*' && !IsLineTerminator(s[k])
    ensures CloseAt(s, m) == Some(|s|)
    decreases close - m
  {
    if m < close {
      CloseScan(s, m + 1, close);
    }
  }

  lemma EmphasisParts(x: string)
    requires forall k :: 0 <= k < |x| ==> x[k] != '*' && !IsLineTerminator(x[k])
    ensures Parts("**" + x + "**") == ["", "**" + x + "**", ""]
  {
    var s := "**" + x + "**";
    forall k | 2 <= k < |x| + 2 ensures s[k] != '*' && !IsLineTerminator(s[k]) {
      assert s[k] == x[k - 2];
    }
    CloseScan(s, 2, |x| + 2);
    assert MatchAt(s, 0) == Some(|s|);
    var cs := Cuts(s, 0, 0);
    assert Cuts(s, |s|, |s|) == [Cut(|s|, |s|, false)];
    assert cs == [Cut(0, 0, false), Cut(0, |s|, true), Cut(|s|, |s|, false)];
    var parts := Parts(s);
    assert parts[1] == s[0..|s|] == s;
  }

  /** Text wrapped in `**` with no asterisk or line break inside is one emphasis span, whatever
      it contains; in particular an amount inside emphasis is not a currency span. */
  lemma EmphasisWins(x: string)
    requires forall k :: 0 <= k < |x| ==> x[k] != '*' && !IsLineTerminator(x[k])
    ensures ProcessLine("**" + x + "**") == [Plain(""), Emphasis(x), Plain("")]
  {
    var s := "**" + x + "**";
    EmphasisParts(x);
    ClassifyBold(x);
    ClassifyEmpty();
    var spans := ProcessLine(s);
    assert |spans| == 3;
    assert spans[0] == Plain("") && spans[1] == Emphasis(x) && spans[2] == Plain("");
  }

  lemma ClassifyBold(x: string)
    ensures Classify("**" + x + "**") == Emphasis(x)
  {
    var s := "**" + x + "**";
    assert s[..2] == "**" && s[|s| - 2..] == "**";
    assert s[2..|s| - 2] == x;
  }

  lemma ClassifyEmpty()
    ensures Classify("") == Plain("")
  {
    assert !HasCurrency("");
  }

  /** "**KES 1,200**" shows as a single emphasis span "KES 1,200". */
  lemma BoldPriceIsEmphasis()
    ensures ProcessLine("**KES 1,200**") == [Plain(""), Emphasis("KES 1,200"), Plain("")]
  {
    var x := "KES 1,200";
    assert "**KES 1,200**" == "**" + x + "**";
    EmphasisWins(x);
  }

  // ---------------------------------------------------------------------------
  // Lines

  predicate IsHash(c: char) {
    c == '#'
  }

  /** `[\*\-\d\.]`. */
  predicate IsListMarkerChar(c: char) {
    c == '*' || c == '-' || IsDigit(c) || c == '.'
  }

  /** `/^\d+\./.test(t)`. */
  predicate DigitsThenDot(t: string) {
    var k := RunEnd(t, 0, IsDigit);
    0 < k < |t| && t[k] == '.'
  }

  /** The list test, applied to the trimmed line. */
  predicate IsListLine(t: string) {
    StartsWith(t, "*") || StartsWith(t, "-") || DigitsThenDot(t)
  }

  /** `t.replace(/^[\*\-\d\.]+\s*\/, '')`. */
  function StripListMarker(t: string): (r: string)
    ensures |r| <= |t|
    ensures (t == [] || !IsListMarkerChar(t[0])) ==> r == t
  {
    var k := RunEnd(t, 0, IsListMarkerChar);
    if k == 0 then t else t[RunEnd(t, k, IsSpace)..]
  }

  /** A line opening with a marker loses its whole run of marker characters `[0, k)`, then the
      whole run of white space `[k, j)` after it. */
  lemma StripListMarkerSpec(t: string, k: nat, j: nat)
    requires 0 < k <= j <= |t|
    requires forall i :: 0 <= i < k ==> IsListMarkerChar(t[i])
    requires k == |t| || !IsListMarkerChar(t[k])
    requires forall i :: k <= i < j ==> IsSpace(t[i])
    requires j == |t| || !IsSpace(t[j])
    ensures StripListMarker(t) == t[j..]
  {
    RunEndUnique(t, 0, IsListMarkerChar, k);
    RunEndUnique(t, k, IsSpace, j);
  }

  /** `line.replace(/#+/, '').trim()` for a line that starts with `#`: the first run of `#` is the
      leading one. */
  function HeadingText(line: string): string {
    Trim(line[RunEnd(line, 0, IsHash)..])
  }

  /** A heading loses its whole leading run of `#` and then the white space around the rest. */
  lemma HeadingTextDropsHashes(n: nat, rest: string)
    requires rest == [] || !IsHash(rest[0])
    ensures HeadingText(seq(n, _ => '#') + rest) == Trim(rest)
  {
    var line := seq(n, _ => '#') + rest;
    forall k | 0 <= k < n ensures IsHash(line[k]) {
      assert line[k] == '#';
    }
    assert n < |line| ==> line[n] == rest[0];
    RunEndUnique(line, 0, IsHash, n);
    assert line[n..] == rest;
  }

  /** One line of the reply. A heading needs a leading `##` (the `###` test is subsumed by it). */
  function ClassifyLine(line: string): Block {
    if Trim(line) == [] then Blank
    else if StartsWith(line, "##") then Heading(HeadingText(line))
    else if IsListLine(Trim(line)) then ListItem(ProcessLine(StripListMarker(Trim(line))))
    else Paragraph(ProcessLine(line))
  }

  /** The four kinds of line, decided in the renderer's order. */
  lemma ClassifyLineKinds(line: string)
    ensures ClassifyLine(line).Blank? <==> IsBlank(line)
    ensures ClassifyLine(line).Heading? <==> !IsBlank(line) && StartsWith(line, "##")
    ensures ClassifyLine(line).ListItem? <==>
      !IsBlank(line) && !StartsWith(line, "##") && IsListLine(Trim(line))
    ensures ClassifyLine(line).Paragraph? <==>
      !IsBlank(line) && !StartsWith(line, "##") && !IsListLine(Trim(line))
  {
  }

  lemma TrimKeepsFirst(line: string)
    requires |line| > 0 && !IsSpace(line[0])
    ensures |Trim(line)| > 0 && Trim(line)[0] == line[0]
  {
    assert TrimStart(line) == line;
    assert !IsBlank(line);
    assert Trim(line) == TrimEnd(line);
  }

  /** A single `#` does not make a heading: such a line is a paragraph. */
  lemma SingleHashIsParagraph(line: string)
    requires StartsWith(line, "#") && !StartsWith(line, "##")
    ensures ClassifyLine(line) == Paragraph(ProcessLine(line))
  {
    assert line[0] == '#';
    TrimKeepsFirst(line);
    var t := Trim(line);
    assert t != [] && t[0] == '#';
    assert !StartsWith(t, "*") && !StartsWith(t, "-");
    RunEndUnique(t, 0, IsDigit, 0);
    assert !DigitsThenDot(t);
    assert !IsListLine(t);
  }

  lemma TrimAfterBold(rest: string)
    requires |rest| > 0 && !IsSpace(rest[0])
    ensures Trim("**" + rest) == "**" + TrimEnd(rest)
    ensures TrimEnd(rest) != [] && TrimEnd(rest)[0] == rest[0]
  {
    var line := "**" + rest;
    assert line[0] == '*';
    assert TrimStart(line) == line;
    TrimEndPrefix("**", rest);
  }

  lemma StripBoldMarker(tr: string)
    requires |tr| > 0 && !IsListMarkerChar(tr[0]) && !IsSpace(tr[0])
    ensures StripListMarker("**" + tr) == tr
  {
    var t := "**" + tr;
    assert t[0] == '*' && t[1] == '*' && t[2] == tr[0];
    RunEndUnique(t, 0, IsListMarkerChar, 2);
    RunEndUnique(t, 2, IsSpace, 2);
    assert t[2..] == tr;
  }

  /** A line opening with bold text counts as a list item, and its leading asterisks are
      stripped before the spans are found. */
  lemma LeadingBoldIsListItem(rest: string)
    requires |rest| > 0 && !IsListMarkerChar(rest[0]) && !IsSpace(rest[0])
    ensures ClassifyLine("**" + rest) == ListItem(ProcessLine(TrimEnd(rest)))
  {
    var line := "**" + rest;
    TrimAfterBold(rest);
    var tr := TrimEnd(rest);
    assert ("**" + tr)[..1] == "*";
    assert line[..2] == "**";
    ClassifyListLine(line);
    StripBoldMarker(tr);
  }

  /** A non-blank line that is not a heading and whose trim opens with a list marker is a list item. */
  lemma ClassifyListLine(line: string)
    requires Trim(line) != [] && !StartsWith(line, "##") && IsListLine(Trim(line))
    ensures ClassifyLine(line) == ListItem(ProcessLine(StripListMarker(Trim(line))))
  {
  }

  lemma {:induction false} TrimEndPrefix(a: string, b: string)
    requires |b| > 0 && !IsSpace(b[0])
    ensures TrimEnd(a + b) == a + TrimEnd(b)
    decreases |b|
  {
    var ab := a + b;
    var last := ab[|ab| - 1];
    assert last == b[|b| - 1];
    if IsSpace(last) {
      assert |b| > 1;
      var b' := b[..|b| - 1];
      assert ab[..|ab| - 1] == a + b';
      assert TrimEnd(ab) == TrimEnd(a + b');
      assert TrimEnd(b) == TrimEnd(b');
      TrimEndPrefix(a, b');
    } else {
      assert TrimEnd(ab) == ab;
      assert TrimEnd(b) == b;
    }
  }

  // ---------------------------------------------------------------------------
  // Whole replies

  /** `formatText`: remove the markers, split on line breaks, classify each line. */
  function FormatText(text: string): (blocks: seq<Block>)
    ensures var lines := Split(StripMarkers(text, 0), '\n');
      |blocks| == |lines| && forall i :: 0 <= i < |lines| ==> blocks[i] == ClassifyLine(lines[i])
  {
    var lines := Split(StripMarkers(text, 0), '\n');
    seq(|lines|, i requires 0 <= i < |lines| => ClassifyLine(lines[i]))
  }

  /** A line that carries no formatting. */
  predicate PlainLine(line: string) {
    && !IsBlank(line)
    && !StartsWith(line, "#")
    && !IsListLine(Trim(line))
    && NoInlineMarkup(line)
  }

  lemma NoHashNoHeading(line: string)
    requires !StartsWith(line, "#")
    ensures !StartsWith(line, "##")
  {
  }

  lemma PlainLineParagraph(line: string)
    requires PlainLine(line)
    ensures ClassifyLine(line) == Paragraph([Plain(line)])
  {
    NoHashNoHeading(line);
    assert ClassifyLine(line) == Paragraph(ProcessLine(line));
    ProcessLinePlain(line);
  }

  /** One paragraph per line, each a single plain span holding the line. */
  function PlainParagraphs(lines: seq<string>): seq<Block> {
    seq(|lines|, i requires 0 <= i < |lines| => Paragraph([Plain(lines[i])]))
  }

  /** Segmenting text without markers or formatting gives one paragraph per line, each a single
      plain span equal to the line. */
  lemma PlainTextIsParagraphs(text: string)
    requires MarkerIds(text, 0) == []
    requires forall i :: 0 <= i < |Split(text, '\n')| ==> PlainLine(Split(text, '\n')[i])
    ensures FormatText(text) == PlainParagraphs(Split(text, '\n'))
  {
    StripMarkersIdentity(text);
    assert StripMarkers(text, 0) == text;
    var lines := Split(text, '\n');
    var blocks := FormatText(text);
    forall i | 0 <= i < |lines| ensures blocks[i] == Paragraph([Plain(lines[i])]) {
      PlainLineParagraph(lines[i]);
    }
  }
}
