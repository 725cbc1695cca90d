/** The public-domain search box: the minimum-length guard, the search
    request on the trimmed query, the compliance log for copyrighted results,
    the clear button and when the search button is enabled. The HTTP replies
    are parameters; the log request is fire-and-forget, so its outcome is not
    modelled. */
module SearchDownload {
  import opened Wrappers
  import opened JsText

  const ShortQueryText := "Please enter a valid movie name (at least 2 characters)"
  const SearchFailedText := "Failed to search. Please try again."
  const RejectedReason := "Copyrighted content - directed to streaming platforms"
  const MinQueryLength := 2
  const EnterKey := "Enter"

  /** The body of a search reply, as far as the component looks at it. */
  datatype SearchData = SearchData(isPublicDomain: bool, message: string)

  /** The reply to `GET /api/search/movies`: the data, or a failure with the
      server's `error` text (empty when it sent none). */
  datatype SearchReply = Found(data: SearchData) | SearchFailed(serverError: string)

  /** The body posted to `/api/search/log-rejected`. */
  datatype RejectedLog = RejectedLog(query: string, reason: string)

  /** The guard of `handleSearch`: the trimmed query must have at least two
      UTF-16 code units. */
  predicate QueryRejected(query: string)
    ensures QueryRejected(query) <==> JsLength(Trim(query)) < MinQueryLength
  {
    Trim(query) == [] || JsLength(Trim(query)) < MinQueryLength
  }

  /** The search button is enabled when no search is running and the trimmed
      query is not empty. */
  predicate SearchButtonEnabled(loading: bool, query: string)
    ensures SearchButtonEnabled(loading, query) ==> !loading && JsLength(Trim(query)) >= 1
    ensures !loading && !QueryRejected(query) ==> SearchButtonEnabled(loading, query)
  {
    !loading && Trim(query) != []
  }

  /** The clear button is shown while the query is not empty. */
  predicate ClearButtonShown(query: string) {
    query != []
  }

  /** A query that trims to one code unit enables the button but is still
      refused when clicked; any query the guard accepts enables it. */
  lemma ButtonAndGuard(query: string)
    ensures JsLength(Trim(query)) == 1 ==> SearchButtonEnabled(false, query) && QueryRejected(query)
    ensures !QueryRejected(query) ==> SearchButtonEnabled(false, query)
    ensures QueryRejected(query) <==> JsLength(Trim(query)) < MinQueryLength
  {
  }

  /** A single character above U+FFFF is two code units long, so the guard
      lets it through although it is one character. */
  lemma AstralCharacterAccepted(c: char)
    requires c as int > 0xFFFF
    ensures !QueryRejected([c])
  {
    assert TrimStart([c]) == [c];
    assert Trim([c]) == [c];
  }

  /** White space typed before the query does not change what the guard
      decides. */
  lemma {:induction false} GuardIgnoresLeadingBlanks(query: string, pad: string)
    requires IsBlank(pad)
    ensures QueryRejected(pad + query) == QueryRejected(query)
  {
    TrimStartBlankPrefix(pad, query);
  }

  lemma {:induction false} TrimStartBlankPrefix(pad: string, s: string)
    requires IsBlank(pad)
    ensures TrimStart(pad + s) == TrimStart(s)
  {
    if pad != [] {
      assert (pad + s)[1..] == pad[1..] + s;
      TrimStartBlankPrefix(pad[1..], s);
    } else {
      assert pad + s == s;
    }
  }

  class SearchBox {
    var query: string
    var loading: bool
    var results: Option<SearchData>
    var error: string

    constructor ()
      ensures query == "" && !loading && results == None && error == ""
    {
      query, loading, results, error := "", false, None, "";
    }

    /** The input's change handler. */
    method Type(text: string)
      modifies this`query
      ensures query == text
    {
      query := text;
    }

    /** `handleSearch`. A query the guard refuses shows the hint and sends
        nothing, leaving everything else as it was. Otherwise the trimmed
        query is searched; the reply's data is stored, and when it is not
        public domain the untrimmed query is logged as rejected; a failure
        shows the server's text or the default and clears nothing more.
        Loading is over afterwards. */
    method Search(reply: SearchReply) returns (sent: Option<string>, logged: Option<RejectedLog>)
      modifies this`loading, this`results, this`error
      ensures QueryRejected(query) ==>
        sent == None && logged == None &&
        error == ShortQueryText && loading == old(loading) && results == old(results)
      ensures !QueryRejected(query) ==> sent == Some(Trim(query)) && !loading
      ensures !QueryRejected(query) && reply.Found? ==>
        results == Some(reply.data) && error == "" &&
        (logged.Some? <==> !reply.data.isPublicDomain) &&
        (logged.Some? ==> logged.value == RejectedLog(query, RejectedReason))
      ensures !QueryRejected(query) && reply.SearchFailed? ==>
        results == None && logged == None && error == OrElse(reply.serverError, SearchFailedText)
    {
      var trimmed := Trim(query);
      if trimmed == [] || JsLength(trimmed) < MinQueryLength {
        error := ShortQueryText;
        return None, None;
      }
      sent := Some(trimmed);
      logged := Settle(reply);
    }

    /** The request part of `handleSearch`, once the guard has passed: the
        earlier results and error are cleared, then the reply is stored or
        its error shown, and a copyrighted result is logged with the query
        as typed. */
    method Settle(reply: SearchReply) returns (logged: Option<RejectedLog>)
      modifies this`loading, this`results, this`error
      ensures !loading
      ensures reply.Found? ==>
        results == Some(reply.data) && error == "" &&
        (logged.Some? <==> !reply.data.isPublicDomain) &&
        (logged.Some? ==> logged.value == RejectedLog(query, RejectedReason))
      ensures reply.SearchFailed? ==>
        results == None && logged == None && error == OrElse(reply.serverError, SearchFailedText)
    {
      loading := true;
      error := "";
      results := None;
      logged := None;
      match reply {
        case Found(data) =>
          results := Some(data);
          if !data.isPublicDomain {
            logged := Some(RejectedLog(query, RejectedReason));
          }
        case SearchFailed(serverError) =>
          error := OrElse(serverError, SearchFailedText);
      }
      loading := false;
    }

    /** `handleKeyPress`: Enter runs the search, any other key does nothing. */
    method KeyPress(key: string, reply: SearchReply) returns (sent: Option<string>, logged: Option<RejectedLog>)
      modifies this`loading, this`results, this`error
      ensures key != EnterKey ==>
        sent == None && logged == None &&
        loading == old(loading) && results == old(results) && error == old(error)
      ensures key == EnterKey && QueryRejected(query) ==>
        sent == None && logged == None &&
        error == ShortQueryText && loading == old(loading) && results == old(results)
      ensures key == EnterKey && !QueryRejected(query) ==> sent == Some(Trim(query)) && !loading
      ensures key == EnterKey && !QueryRejected(query) && reply.Found? ==>
        results == Some(reply.data) && error == "" &&
        (logged.Some? <==> !reply.data.isPublicDomain) &&
        (logged.Some? ==> logged.value == RejectedLog(query, RejectedReason))
      ensures key == EnterKey && !QueryRejected(query) && reply.SearchFailed? ==>
        results == None && logged == None && error == OrElse(reply.serverError, SearchFailedText)
    {
      if key == EnterKey {
        sent, logged := Search(reply);
      } else {
        sent, logged := None, None;
      }
    }

    /** The clear button: the query, the results and the error are reset. */
    method Clear()
      modifies this`query, this`results, this`error
      ensures query == "" && results == None && error == ""
      ensures !ClearButtonShown(query) && !SearchButtonEnabled(loading, query)
    {
      query, results, error := "", None, "";
    }
  }
}
