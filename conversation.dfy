/** The assistant chat: the conversation log with its loading flag, the citations taken from a
    reply's grounding chunks, and the message built from a reply. The AI gateway itself is
    outside the model: its reply (or its failure) is an input to the settle transitions. */
module Conversation {
  import opened Wrappers
  import opened Text
  import opened Seqs
  import opened Catalog
  import opened Recommendations

  datatype Role = UserTurn | ModelTurn

  /** A web source reported by the gateway; both fields may be missing. */
  datatype Web = Web(title: Option<string>, uri: Option<string>)

  datatype GroundingChunk = GroundingChunk(web: Option<Web>)

  /** A citation shown under a reply. The uri is copied as is, so it may be missing. */
  datatype Citation = Citation(title: string, uri: Option<string>)

  datatype Message = Message(
    role: Role,
    text: string,
    timestamp: int,
    suggestedProducts: Option<seq<Product>>,
    sources: Option<seq<Citation>>)

  /** What the gateway returns: the reply text and the grounding chunks of its first candidate,
      each possibly missing. */
  datatype Reply = Reply(text: Option<string>, groundingChunks: Option<seq<GroundingChunk>>)

  /** How the gateway call ends. */
  datatype Outcome = Answered(reply: Reply) | Failed

  /** What is sent to the gateway: the user's text and the inventory listing. */
  datatype Request = Request(contents: string, inventoryContext: string)

  const PlaceholderText := "I'm looking that up for you. One moment."
  const ApologyText := "I encountered a slight issue connecting to the market brain. Please check your internet and try again."
  const DefaultSourceTitle := "Source"

  // ---------------------------------------------------------------------------
  // Citations

  predicate HasWeb(c: GroundingChunk) {
    c.web.Some?
  }

  /** A missing or empty title falls back to "Source". */
  function CitationOf(c: GroundingChunk): (r: Citation)
    requires HasWeb(c)
    ensures r.title != []
    ensures c.web.value.title.Some? && c.web.value.title.value != [] ==> r.title == c.web.value.title.value
    ensures r.uri == c.web.value.uri
  {
    var w := c.web.value;
    Citation(if w.title.None? || w.title.value == [] then DefaultSourceTitle else w.title.value, w.uri)
  }

  /** `chunks.filter(chunk => chunk.web).map(...)`. */
  function Citations(chunks: seq<GroundingChunk>): (r: seq<Citation>)
    ensures |r| <= |chunks|
    ensures forall i :: 0 <= i < |r| ==> r[i].title != []
  {
    var kept := Filter(chunks, HasWeb);
    seq(|kept|, i requires 0 <= i < |kept| => CitationOf(kept[i]))
  }

  /** Citations keep the order of the chunks: those of a concatenation are the concatenation. */
  lemma CitationsAppend(a: seq<GroundingChunk>, b: seq<GroundingChunk>)
    ensures Citations(a + b) == Citations(a) + Citations(b)
  {
    FilterAppend(a, b, HasWeb);
  }

  /** A chunk without a web source contributes nothing, wherever it stands. */
  lemma CitationsSkipNoWeb(a: seq<GroundingChunk>, b: seq<GroundingChunk>)
    ensures Citations(a + [GroundingChunk(None)] + b) == Citations(a + b)
  {
    CitationsAppend(a + [GroundingChunk(None)], b);
    CitationsAppend(a, [GroundingChunk(None)]);
    CitationsAppend(a, b);
  }

  /** A chunk with a web source is cited even when it has neither a title nor a uri. */
  lemma CitationWithoutUri()
    ensures Citations([GroundingChunk(Some(Web(None, None)))]) == [Citation("Source", None)]
  {
    var c := GroundingChunk(Some(Web(None, None)));
    assert Filter([c], HasWeb) == [c];
  }

  /** When every chunk has a web source, there is one citation per chunk, in chunk order. */
  lemma CitationsAllWeb(chunks: seq<GroundingChunk>)
    requires forall i :: 0 <= i < |chunks| ==> HasWeb(chunks[i])
    ensures |Citations(chunks)| == |chunks|
    ensures forall i :: 0 <= i < |chunks| ==> Citations(chunks)[i] == CitationOf(chunks[i])
  {
    FilterAll(chunks, HasWeb);
  }

  // ---------------------------------------------------------------------------
  // Reply messages

  /** `response.text || placeholder`: a missing or empty text is replaced. */
  function ReplyText(reply: Reply): (r: string)
    ensures r != []
    ensures reply.text.Some? && reply.text.value != [] ==> r == reply.text.value
    ensures reply.text.None? || reply.text.value == [] ==> r == PlaceholderText
  {
    if reply.text.Some? && reply.text.value != [] then reply.text.value else PlaceholderText
  }

  /** An empty list is omitted (left undefined) rather than stored. */
  function NonEmpty<T>(s: seq<T>): (r: Option<seq<T>>)
    ensures r.Some? <==> |s| > 0
    ensures r.Some? ==> r.value == s
  {
    if |s| > 0 then Some(s) else None
  }

  /** The model message that a successful reply adds to the log. */
  function ReplyMessage(reply: Reply, products: seq<Product>, now: int): (m: Message)
    ensures m.role == ModelTurn && m.timestamp == now && m.text == ReplyText(reply)
    ensures m.suggestedProducts == NonEmpty(Resolve(MarkerIds(m.text, 0), products))
    ensures m.sources == NonEmpty(Citations(reply.groundingChunks.GetOr([])))
  {
    var text := ReplyText(reply);
    Message(ModelTurn, text, now, NonEmpty(Resolve(MarkerIds(text, 0), products)),
            NonEmpty(Citations(reply.groundingChunks.GetOr([]))))
  }

  /** What a reply message carries: its suggestions are exactly the catalog products named by the
      markers of its text, first mention first and without repeats, and its citations all have
      titles; both are omitted when empty. */
  lemma ReplyMessageContents(reply: Reply, products: seq<Product>, now: int)
    ensures var m := ReplyMessage(reply, products, now);
      && (m.suggestedProducts.Some? ==>
            |m.suggestedProducts.value| > 0 && ResolvesExactly(m.suggestedProducts.value, MarkerIds(m.text, 0), products))
      && (m.sources.Some? ==>
            |m.sources.value| > 0 && forall i :: 0 <= i < |m.sources.value| ==> m.sources.value[i].title != [])
      && (reply.groundingChunks.None? ==> m.sources.None?)
  {
    var m := ReplyMessage(reply, products, now);
    ResolveSpec(MarkerIds(m.text, 0), products);
  }

  /** A reply whose text has no `[` suggests nothing. */
  lemma ReplyWithoutMarkers(reply: Reply, products: seq<Product>, now: int)
    requires '[' !in reply.text.GetOr([])
    ensures ReplyMessage(reply, products, now).suggestedProducts.None?
  {
    var t := ReplyText(reply);
    assert '[' !in t by {
      if reply.text.None? || reply.text.value == [] {
        assert forall k :: 0 <= k < |PlaceholderText| ==> PlaceholderText[k] != '[';
      }
    }
    NoMarkerFrom(t, 0);
    NoMarkersNoRecommendations(t, products);
  }

  function ApologyMessage(now: int): (m: Message)
    ensures m.role == ModelTurn && m.text == ApologyText
    ensures m.suggestedProducts.None? && m.sources.None?
  {
    Message(ModelTurn, ApologyText, now, None, None)
  }

  // ---------------------------------------------------------------------------
  // The log

  /** The log alternates user and model turns, starting with the user, and the chat is loading
      exactly when the last turn is the user's. */
  predicate WellFormedLog(ms: seq<Message>, loading: bool) {
    && (forall i :: 0 <= i < |ms| ==> ms[i].role == (if i % 2 == 0 then UserTurn else ModelTurn))
    && (loading <==> |ms| % 2 == 1)
  }

  /** The number of messages with the given role. */
  function CountRole(ms: seq<Message>, role: Role): (n: nat)
    ensures n <= |ms|
  {
    if ms == [] then 0
    else CountRole(ms[..|ms| - 1], role) + (if ms[|ms| - 1].role == role then 1 else 0)
  }

  function RoleIs(role: Role): Message -> bool {
    (m: Message) => m.role == role
  }

  lemma FilterLengthLast(pre: seq<Message>, last: Message, role: Role)
    ensures |Filter(pre + [last], RoleIs(role))|
      == |Filter(pre, RoleIs(role))| + (if last.role == role then 1 else 0)
  {
    FilterAppend(pre, [last], RoleIs(role));
    if last.role == role {
      FilterKeep(last, [], RoleIs(role));
    } else {
      FilterDrop(last, [], RoleIs(role));
    }
    assert [last] + [] == [last];
  }

  /** The count is the number of messages with that role. */
  lemma {:induction false} CountRoleFilter(ms: seq<Message>, role: Role)
    ensures CountRole(ms, role) == |Filter(ms, RoleIs(role))|
  {
    if ms != [] {
      var pre := ms[..|ms| - 1];
      CountRoleFilter(pre, role);
      FilterLengthLast(pre, ms[|ms| - 1], role);
      assert pre + [ms[|ms| - 1]] == ms;
    }
  }

  lemma {:induction false} AlternatingCounts(ms: seq<Message>)
    requires forall i :: 0 <= i < |ms| ==> ms[i].role == (if i % 2 == 0 then UserTurn else ModelTurn)
    ensures CountRole(ms, UserTurn) == (|ms| + 1) / 2
    ensures CountRole(ms, ModelTurn) == |ms| / 2
  {
    if ms != [] {
      var pre := ms[..|ms| - 1];
      AlternatingCounts(pre);
    }
  }

  /** Model messages never outnumber user messages, and the user is at most one message ahead,
      which happens exactly while a reply is pending. */
  lemma LogBalance(ms: seq<Message>, loading: bool)
    requires WellFormedLog(ms, loading)
    ensures CountRole(ms, ModelTurn) <= CountRole(ms, UserTurn) <= CountRole(ms, ModelTurn) + 1
    ensures loading <==> CountRole(ms, UserTurn) == CountRole(ms, ModelTurn) + 1
  {
    AlternatingCounts(ms);
  }

  /** Appending the turn that is due keeps the log well formed and flips the loading flag. */
  lemma LogAppend(ms: seq<Message>, loading: bool, m: Message)
    requires m.role == (if loading then ModelTurn else UserTurn)
    ensures WellFormedLog(ms, loading) ==> WellFormedLog(ms + [m], !loading)
  {
    if WellFormedLog(ms, loading) {
      forall i | 0 <= i < |ms| + 1
        ensures (ms + [m])[i].role == (if i % 2 == 0 then UserTurn else ModelTurn)
      {
        if i < |ms| {
          assert (ms + [m])[i] == ms[i];
        }
      }
    }
  }

  // ---------------------------------------------------------------------------
  // The page state

  /** The chat page: its message log, the text field and the loading flag. */
  class ChatSession {
    var messages: seq<Message>
    var input: string
    var isLoading: bool

    ghost predicate Valid()
      reads this
    {
      WellFormedLog(messages, isLoading)
    }

    constructor()
      ensures messages == [] && input == [] && !isLoading
      ensures Valid()
    {
      messages := [];
      input := [];
      isLoading := false;
    }

    /** Typing in the text field. */
    method SetInput(value: string)
      modifies this
      ensures input == value && messages == old(messages) && isLoading == old(isLoading)
    {
      input := value;
    }

    /** The first half of `handleSendMessage`: blank text (its trim is empty, by the contract of
        `Trim`), or text sent while a reply is pending,
        is ignored; otherwise the user's message is logged, the field cleared, the chat put into
        the loading state, and the request for the gateway returned. */
    method Submit(userText: string, products: seq<Product>, now: int) returns (request: Option<Request>)
      modifies this
      ensures request.Some? <==> !IsBlank(userText) && !old(isLoading)
      ensures request.None? ==>
        messages == old(messages) && isLoading == old(isLoading) && input == old(input)
      ensures request.Some? ==>
        && messages == old(messages) + [Message(UserTurn, userText, now, None, None)]
        && input == [] && isLoading
        && request.value == Request(userText, InventoryContext(products))
      ensures old(Valid()) ==> Valid()
    {
      if IsBlank(userText) || isLoading {
        return None;
      }
      ghost var before := messages;
      messages := messages + [Message(UserTurn, userText, now, None, None)];
      input := [];
      isLoading := true;
      LogAppend(before, false, Message(UserTurn, userText, now, None, None));
      var context := InventoryContext(products);
      request := Some(Request(userText, context));
    }

    /** The gateway answered: the reply message is logged and loading ends. */
    method SettleSuccess(reply: Reply, products: seq<Product>, now: int)
      requires isLoading
      modifies this
      ensures messages == old(messages) + [ReplyMessage(reply, products, now)]
      ensures !isLoading && input == old(input)
      ensures old(Valid()) ==> Valid()
    {
      var responseText := ReplyText(reply);
      var sources := Citations(reply.groundingChunks.GetOr([]));
      var suggested := ParseRecommendations(responseText, products);
      LogAppend(messages, true, Message(ModelTurn, responseText, now, NonEmpty(suggested), NonEmpty(sources)));
      messages := messages + [Message(ModelTurn, responseText, now, NonEmpty(suggested), NonEmpty(sources))];
      isLoading := false;
    }

    /** The gateway failed: the apology is logged and loading ends. */
    method SettleFailure(now: int)
      requires isLoading
      modifies this
      ensures messages == old(messages) + [ApologyMessage(now)]
      ensures !isLoading && input == old(input)
      ensures old(Valid()) ==> Valid()
    {
      LogAppend(messages, true, Message(ModelTurn, ApologyText, now, None, None));
      messages := messages + [Message(ModelTurn, ApologyText, now, None, None)];
      isLoading := false;
    }

    /** `handleSendMessage` run to completion: an accepted submit adds exactly two messages, the
        user's and then the model's, and leaves the chat idle; an ignored one changes nothing. */
    method HandleSendMessage(userText: string, products: seq<Product>, outcome: Outcome, sentAt: int, settledAt: int)
      modifies this
      ensures IsBlank(userText) || old(isLoading) ==>
        messages == old(messages) && isLoading == old(isLoading) && input == old(input)
      ensures !IsBlank(userText) && !old(isLoading) ==>
        && |messages| == |old(messages)| + 2
        && messages[..|old(messages)|] == old(messages)
        && messages[|old(messages)|] == Message(UserTurn, userText, sentAt, None, None)
        && messages[|old(messages)| + 1] ==
             (if outcome.Failed? then ApologyMessage(settledAt) else ReplyMessage(outcome.reply, products, settledAt))
        && !isLoading && input == []
      ensures old(Valid()) ==> Valid()
    {
      var request := Submit(userText, products, sentAt);
      if request.Some? {
        ghost var logged := messages;
        ghost var last := if outcome.Failed? then ApologyMessage(settledAt) else ReplyMessage(outcome.reply, products, settledAt);
        match outcome
        case Answered(reply) => SettleSuccess(reply, products, settledAt);
        case Failed => SettleFailure(settledAt);
        assert messages == logged + [last];
      }
    }
  }
}
