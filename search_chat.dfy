/**
 * The search-grounding demo (components/demos/SearchChat.tsx): `handleSearch` clears the previous
 * answer, asks the model with the search tool, shows the answer text (or a fallback) and lists the
 * grounding chunks that carry a web address as links.
 *
 * As in the chat helper, the handler is split at its one await into `BeginSearch` and
 * `FinishSearch`, the model call's outcome being an input of the latter.
 */
module SearchChat {

  import opened Wrappers
  import JsString

  /** The pieces of a `generateContent` result the handler reads; every level may be absent. */
  datatype Web = Web(uri: Option<string>, title: Option<string>)
  datatype GroundingChunk = GroundingChunk(web: Option<Web>)
  datatype GroundingMetadata = GroundingMetadata(groundingChunks: Option<seq<GroundingChunk>>)
  datatype Candidate = Candidate(groundingMetadata: Option<GroundingMetadata>)
  datatype SearchResult = SearchResult(text: Option<string>, candidates: Option<seq<Candidate>>)

  /** The model call ends with a result, or throws. */
  datatype Outcome = Answered(result: SearchResult) | Failed

  /** A listed source: `{ title: c.web.title, uri: c.web.uri }`. */
  datatype Link = Link(title: Option<string>, uri: string)

  /** The `generateContent` call made: the model and the question. */
  datatype SearchRequest = SearchRequest(model: string, contents: string)

  const SearchModel: string := "gemini-3-flash-preview"
  const NoTextResponse: string := "No text response generated."
  const ErrorResponse: string := "Error generating response. Please try again."

  /** `c.web?.uri` is truthy. */
  predicate HasUri(c: GroundingChunk): (b: bool)
    ensures c.web.None? ==> !b
    ensures c.web.Some? ==> (b <==> c.web.value.uri.Some? && c.web.value.uri.value != [])
  {
    c.web.Some? && c.web.value.uri.Some? && c.web.value.uri.value != []
  }

  function ToLink(c: GroundingChunk): (l: Link)
    requires HasUri(c)
    ensures l.uri == c.web.value.uri.value && l.title == c.web.value.title && l.uri != []
  {
    Link(c.web.value.title, c.web.value.uri.value)
  }

  /** `chunks.filter(c => c.web?.uri).map(c => ({ title: c.web.title, uri: c.web.uri }))`. */
  function ExtractLinks(chunks: seq<GroundingChunk>): (r: seq<Link>)
    ensures |r| <= |chunks|
    ensures forall i :: 0 <= i < |r| ==> r[i].uri != []
    decreases |chunks|
  {
    if chunks == [] then []
    else (if HasUri(chunks[0]) then [ToLink(chunks[0])] else []) + ExtractLinks(chunks[1..])
  }

  /** Extraction works chunk by chunk, so it keeps the chunks' order. */
  lemma {:induction false} ExtractLinksAppend(a: seq<GroundingChunk>, b: seq<GroundingChunk>)
    ensures ExtractLinks(a + b) == ExtractLinks(a) + ExtractLinks(b)
    decreases |a|
  {
    if a == [] {
      assert a + b == b;
    } else {
      assert (a + b)[1..] == a[1..] + b;
      ExtractLinksAppend(a[1..], b);
    }
  }

  /** A link is listed exactly when some chunk has a web address and maps to it. */
  lemma {:induction false} ExtractLinksMembers(chunks: seq<GroundingChunk>, l: Link)
    ensures l in ExtractLinks(chunks) <==> exists i :: 0 <= i < |chunks| && HasUri(chunks[i]) && ToLink(chunks[i]) == l
    decreases |chunks|
  {
    if chunks != [] {
      ExtractLinksMembers(chunks[1..], l);
      if l in ExtractLinks(chunks[1..]) {
        var i :| 0 <= i < |chunks[1..]| && HasUri(chunks[1..][i]) && ToLink(chunks[1..][i]) == l;
        assert chunks[i + 1] == chunks[1..][i];
      }
      if exists i :: 0 <= i < |chunks| && HasUri(chunks[i]) && ToLink(chunks[i]) == l {
        var i :| 0 <= i < |chunks| && HasUri(chunks[i]) && ToLink(chunks[i]) == l;
        if i > 0 {
          assert chunks[1..][i - 1] == chunks[i];
        }
      }
    }
  }

  /** When every chunk has a web address, each becomes a link at its own position. */
  lemma {:induction false} ExtractLinksAll(chunks: seq<GroundingChunk>)
    requires forall i :: 0 <= i < |chunks| ==> HasUri(chunks[i])
    ensures |ExtractLinks(chunks)| == |chunks|
    ensures forall i :: 0 <= i < |chunks| ==> ExtractLinks(chunks)[i] == ToLink(chunks[i])
    decreases |chunks|
  {
    if chunks != [] {
      ExtractLinksAll(chunks[1..]);
      var rest := ExtractLinks(chunks[1..]);
      assert ExtractLinks(chunks) == [ToLink(chunks[0])] + rest;
    }
  }

  /** Chunks without a web address are dropped entirely. */
  lemma {:induction false} ExtractLinksNone(chunks: seq<GroundingChunk>)
    requires forall i :: 0 <= i < |chunks| ==> !HasUri(chunks[i])
    ensures ExtractLinks(chunks) == []
    decreases |chunks|
  {
    if chunks != [] {
      ExtractLinksNone(chunks[1..]);
    }
  }

  /** `result.candidates?.[0]?.groundingMetadata?.groundingChunks`. */
  function GroundingChunks(result: SearchResult): (r: Option<seq<GroundingChunk>>)
    ensures r.Some? ==>
      && result.candidates.Some? && |result.candidates.value| > 0
      && result.candidates.value[0].groundingMetadata.Some?
      && result.candidates.value[0].groundingMetadata.value.groundingChunks == r
    ensures (result.candidates.Some? && |result.candidates.value| > 0
             && result.candidates.value[0].groundingMetadata.Some?) ==>
      r == result.candidates.value[0].groundingMetadata.value.groundingChunks
  {
    match result.candidates
    case None => None
    case Some(candidates) =>
      if candidates == [] then None
      else
        match candidates[0].groundingMetadata
        case None => None
        case Some(metadata) => metadata.groundingChunks
  }

  /** The answer shown: the result text when non-empty, the fallback otherwise. */
  function AnswerText(result: SearchResult): (r: string)
    ensures r != []
    ensures result.text.Some? && result.text.value != [] ==> r == result.text.value
    ensures result.text.None? || result.text.value == [] ==> r == NoTextResponse
  {
    if result.text.Some? && result.text.value != [] then result.text.value else NoTextResponse
  }

  class SearchPanel {
    var input: string
    var response: Option<string>
    var links: seq<Link>
    var loading: bool

    constructor()
      ensures input == [] && response.None? && links == [] && !loading
    {
      input := [];
      response := None;
      links := [];
      loading := false;
    }

    method SetInput(text: string)
      modifies this
      ensures input == text && response == old(response) && links == old(links) && loading == old(loading)
    {
      input := text;
    }

    /**
     * `handleSearch` up to the model call: a blank input returns with nothing changed; otherwise
     * loading is set, the previous answer and links are cleared and the question is sent.
     */
    method BeginSearch() returns (request: Option<SearchRequest>)
      modifies this
      ensures input == old(input)
      ensures JsString.IsBlank(old(input)) ==>
        request.None? && response == old(response) && links == old(links) && loading == old(loading)
      ensures !JsString.IsBlank(old(input)) ==>
        request == Some(SearchRequest(SearchModel, old(input))) && loading && response.None? && links == []
    {
      var question := input;
      if JsString.IsBlank(question) {
        return None;
      }
      loading := true;
      response := None;
      links := [];
      request := Some(SearchRequest(SearchModel, question));
    }

    /**
     * `handleSearch` after the model call: show the answer (or the error text), list the grounded
     * links when the result has grounding chunks, and stop loading.
     */
    method FinishSearch(outcome: Outcome)
      modifies this
      ensures !loading && input == old(input)
      ensures outcome.Failed? ==> response == Some(ErrorResponse) && links == old(links)
      ensures outcome.Answered? ==> response == Some(AnswerText(outcome.result))
      ensures outcome.Answered? && GroundingChunks(outcome.result).Some? ==>
        links == ExtractLinks(GroundingChunks(outcome.result).value)
      ensures outcome.Answered? && GroundingChunks(outcome.result).None? ==> links == old(links)
    {
      match outcome {
        case Failed =>
          response := Some(ErrorResponse);
        case Answered(result) =>
          response := Some(AnswerText(result));
          var chunks := GroundingChunks(result);
          if chunks.Some? {
            links := ExtractLinks(chunks.value);
          }
      }
      loading := false;
    }
  }
}
