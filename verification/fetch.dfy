/**
 The page fetcher `fetch_text` (monitor_unisa.py:34-45) with the network and
 the HTML parser taken out: a response is given as its status code and, per
 selector, the node the parser found, so that only the selection rule and the
 error rule remain.
 */
module Fetch {
  import opened Optional

  /** A candidate text shorter than or equal to this is not used. */
  const MinContentLength: nat := 50

  /**
   A node found for one selector: the length of its text with every
   fragment stripped and joined without separator, and the text it renders
   with its stripped fragments joined by line breaks.
   */
  datatype Candidate = Candidate(strippedLength: nat, text: string)

  /**
   A parsed page: for each selector, in the order `#comunicazioni-docenti`,
   `article`, `main`, `section`, `.news`, `.content`, the node found or None,
   and the text of the whole document.
   */
  datatype Page = Page(candidates: seq<Option<Candidate>>, documentText: string)

  /**
   What the HTTP GET gave: an exception raised by the request itself (a
   timeout, a connection or SSL error, too many redirects, an invalid URL,
   ...), or a status and the parse of its body: the page, or None when the
   HTML parser raised on the markup.
   */
  datatype Response = RequestFailed | Reply(status: int, parsed: Option<Page>)

  /** What fetching one URL gives the run: an exception, or the page text. */
  datatype FetchOutcome = Failed | Fetched(text: string)

  /** `raise_for_status` raises for client (4xx) and server (5xx) errors. */
  predicate IsErrorStatus(status: int) {
    400 <= status < 600
  }

  /** A node is used when it exists and its stripped text is longer than 50. */
  predicate Qualifies(c: Option<Candidate>) {
    c.Some? && c.value.strippedLength > MinContentLength
  }

  /**
   The text of the first qualifying candidate, or the fallback when none
   qualifies.
   */
  function SelectText(candidates: seq<Option<Candidate>>, fallback: string): (text: string)
    ensures (forall i :: 0 <= i < |candidates| ==> !Qualifies(candidates[i])) ==> text == fallback
    ensures forall i :: 0 <= i < |candidates| && Qualifies(candidates[i])
                        && (forall j :: 0 <= j < i ==> !Qualifies(candidates[j]))
                        ==> text == candidates[i].value.text
  {
    if candidates == [] then fallback
    else if Qualifies(candidates[0]) then candidates[0].value.text
    else SelectText(candidates[1..], fallback)
  }

  /**
   Fetching fails exactly when the request raises, the status is an error
   or the parser rejects the body; otherwise it yields the selected text of
   the page.
   */
  function FetchText(response: Response): (r: FetchOutcome)
    ensures r.Failed? <==> response.RequestFailed? || IsErrorStatus(response.status) || response.parsed.None?
    ensures r.Fetched? ==>
              r.text == SelectText(response.parsed.value.candidates, response.parsed.value.documentText)
  {
    match response
    case RequestFailed => Failed
    case Reply(status, parsed) =>
      if IsErrorStatus(status) then Failed
      else
        match parsed
        case None => Failed
        case Some(page) => Fetched(SelectText(page.candidates, page.documentText))
  }

  /** A qualifying candidate earlier in the list shadows every later one. */
  lemma {:induction false} SelectionIgnoresLaterCandidates(candidates: seq<Option<Candidate>>, more: seq<Option<Candidate>>, fallback: string)
    requires exists i :: 0 <= i < |candidates| && Qualifies(candidates[i])
    ensures SelectText(candidates + more, fallback) == SelectText(candidates, fallback)
  {
    var c := candidates + more;
    assert c[0] == candidates[0];
    if !Qualifies(candidates[0]) {
      assert c[1..] == candidates[1..] + more;
      var i :| 0 <= i < |candidates| && Qualifies(candidates[i]);
      assert Qualifies(candidates[1..][i - 1]);
      SelectionIgnoresLaterCandidates(candidates[1..], more, fallback);
    }
  }

}
