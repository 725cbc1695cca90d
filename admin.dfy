/** The admin panel: the guard that keeps out anyone who is not a signed-in
    administrator, the validation chain of the movie form, the multipart
    payload it uploads, and what a success or a failure does to the page.
    The URL check (`new URL(s)` not throwing) and the current year are
    inputs. */
module Admin {
  import opened Wrappers
  import opened JsText
  import AuthContext

  const RequiredText := "Please fill in all required fields"
  const YearTextPrefix := "Year must be a valid number between 1900 and "
  const BadDownloadText := "Please enter a valid download URL"
  const BadStreamingText := "Please enter a valid streaming URL"
  const NoPosterText := "Please upload a poster image"
  const AddedText := "Movie added successfully!"
  const SessionExpiredText := "Session expired. Please login again."
  const AddFailedText := "Failed to add movie. Please try again."
  const MultipartType := "multipart/form-data"
  const LoginPath := "/login"
  const HomePath := "/"
  const MinYear := 1900
  const YearsAhead := 10

  /** The five text fields of the movie form. */
  datatype MovieForm = MovieForm(title: string, year: string, description: string, downloadLink: string, streamingLink: string)

  /** The `name` attributes of the text inputs. */
  datatype FieldName = Title | Year | Description | DownloadLink | StreamingLink

  /** A file chosen in one of the file inputs. */
  datatype UploadFile = UploadFile(name: string, size: nat)

  /** One entry of the multipart body. */
  datatype Part = TextPart(name: string, text: string) | FilePart(name: string, file: UploadFile)

  /** What the page shows above the form: a kind (`""`, `"error"` or
      `"success"`) and a text. */
  datatype Message = Message(kind: string, text: string)

  /** The outcome of `POST /api/movies`: success, or a failure with the HTTP
      status when there was a response and the server's `error` text (empty
      when it sent none). */
  datatype UploadReply = Uploaded | UploadFailed(status: Option<int>, serverError: string)

  datatype UploadRequest = UploadRequest(parts: seq<Part>, headers: map<string, string>)

  const EmptyForm := MovieForm("", "", "", "", "")

  /** `handleInputChange`: the field named by the input takes its value. */
  function SetField(f: MovieForm, name: FieldName, value: string): (g: MovieForm)
    ensures name == Title ==> g == f.(title := value)
    ensures name == Year ==> g == f.(year := value)
    ensures name == Description ==> g == f.(description := value)
    ensures name == DownloadLink ==> g == f.(downloadLink := value)
    ensures name == StreamingLink ==> g == f.(streamingLink := value)
  {
    match name
    case Title => f.(title := value)
    case Year => f.(year := value)
    case Description => f.(description := value)
    case DownloadLink => f.(downloadLink := value)
    case StreamingLink => f.(streamingLink := value)
  }

  /** The latest year the form accepts. */
  function MaxYear(currentYear: nat): nat {
    currentYear + YearsAhead
  }

  /** The year check: `parseInt` must give a number in
      `1900 .. currentYear + 10`. */
  predicate YearAccepted(year: string, currentYear: nat) {
    var y := ParseInt(year);
    y.Some? && MinYear <= y.value <= MaxYear(currentYear)
  }

  /** The year message: the fixed text followed by the latest accepted
      year. */
  function YearText(currentYear: nat): string {
    YearTextPrefix + NatToString(MaxYear(currentYear))
  }

  /** The year message names the upper bound of the range: what follows the
      fixed text parses back to `currentYear + 10`. */
  lemma YearTextNamesBound(currentYear: nat)
    ensures StartsWith(YearText(currentYear), YearTextPrefix)
    ensures ParseInt(YearText(currentYear)[|YearTextPrefix|..]) == Some(MaxYear(currentYear))
  {
    var t := YearText(currentYear);
    assert t[|YearTextPrefix|..] == NatToString(MaxYear(currentYear));
    ParseIntNatToString(MaxYear(currentYear));
  }

  /** The checks of `handleSubmit`, one per message. */
  datatype AdminFailure = MissingRequired | BadYear | BadDownloadUrl | BadStreamingUrl | MissingPoster

  /** The text shown for each failed check. */
  function FailureMessage(e: AdminFailure, currentYear: nat): string {
    match e
    case MissingRequired => RequiredText
    case BadYear => YearText(currentYear)
    case BadDownloadUrl => BadDownloadText
    case BadStreamingUrl => BadStreamingText
    case MissingPoster => NoPosterText
  }

  /** The checks of `handleSubmit` in their order: required fields (checked
      for emptiness, not trimmed), the year, each link only when it is
      non-empty, then the poster. The first failure is reported. */
  function AdminError(f: MovieForm, hasPoster: bool, currentYear: nat, isValidUrl: string -> bool): (r: Option<AdminFailure>)
    ensures r.None? <==>
      f.title != [] && f.year != [] && f.description != [] && YearAccepted(f.year, currentYear) &&
      (f.downloadLink == [] || isValidUrl(f.downloadLink)) &&
      (f.streamingLink == [] || isValidUrl(f.streamingLink)) && hasPoster
    ensures r == Some(MissingRequired) <==> f.title == [] || f.year == [] || f.description == []
    ensures r == Some(BadYear) <==>
      f.title != [] && f.year != [] && f.description != [] && !YearAccepted(f.year, currentYear)
    ensures r == Some(BadDownloadUrl) <==>
      f.title != [] && f.year != [] && f.description != [] && YearAccepted(f.year, currentYear) &&
      f.downloadLink != [] && !isValidUrl(f.downloadLink)
    ensures r == Some(BadStreamingUrl) <==>
      f.title != [] && f.year != [] && f.description != [] && YearAccepted(f.year, currentYear) &&
      (f.downloadLink == [] || isValidUrl(f.downloadLink)) &&
      f.streamingLink != [] && !isValidUrl(f.streamingLink)
    ensures r == Some(MissingPoster) <==>
      f.title != [] && f.year != [] && f.description != [] && YearAccepted(f.year, currentYear) &&
      (f.downloadLink == [] || isValidUrl(f.downloadLink)) &&
      (f.streamingLink == [] || isValidUrl(f.streamingLink)) && !hasPoster
  {
    if f.title == [] || f.year == [] || f.description == [] then Some(MissingRequired)
    else if !YearAccepted(f.year, currentYear) then Some(BadYear)
    else if f.downloadLink != [] && !isValidUrl(f.downloadLink) then Some(BadDownloadUrl)
    else if f.streamingLink != [] && !isValidUrl(f.streamingLink) then Some(BadStreamingUrl)
    else if !hasPoster then Some(MissingPoster)
    else None
  }

  /** An empty link is never checked, so it cannot be the reason a form is
      refused, whatever the URL check says. */
  lemma EmptyLinksSkipUrlCheck(f: MovieForm, hasPoster: bool, currentYear: nat, isValidUrl: string -> bool, other: string -> bool)
    requires f.downloadLink == [] && f.streamingLink == []
    ensures AdminError(f, hasPoster, currentYear, isValidUrl) == AdminError(f, hasPoster, currentYear, other)
  {
  }

  /** Every year in range, written the way it is printed, passes the year
      check, whatever else is in the form. */
  lemma CanonicalYearAccepted(y: nat, currentYear: nat)
    requires MinYear <= y <= MaxYear(currentYear)
    ensures YearAccepted(NatToString(y), currentYear)
  {
    ParseIntNatToString(y);
  }

  /** The year check reads only the leading number: a year followed by text
      that does not start with a digit (`"2024abc"`, `"2024.5"`) is accepted
      exactly when the number is in range. */
  lemma YearAcceptedIff(y: nat, rest: string, currentYear: nat)
    requires rest == [] || !IsDigit(rest[0])
    ensures YearAccepted(NatToString(y) + rest, currentYear) <==> MinYear <= y <= MaxYear(currentYear)
  {
    ParseIntStopsAtNonDigit(y, rest);
  }

  /** The fixed entries of the payload, in the order they are appended. */
  function FieldParts(f: MovieForm, poster: UploadFile): seq<Part> {
    [TextPart("title", f.title), TextPart("year", f.year), TextPart("description", f.description),
     TextPart("downloadLink", f.downloadLink), TextPart("streamingLink", f.streamingLink),
     FilePart("poster", poster)]
  }

  /** The banner entry, present only when a banner is chosen. */
  function BannerParts(banner: Option<UploadFile>): seq<Part> {
    if banner.Some? then [FilePart("banner", banner.value)] else []
  }

  /** One `gallery` entry per file. */
  function GalleryParts(gallery: seq<UploadFile>): seq<Part> {
    seq(|gallery|, i requires 0 <= i < |gallery| => FilePart("gallery", gallery[i]))
  }

  /** The `FormData` the page uploads. */
  function Payload(f: MovieForm, poster: UploadFile, banner: Option<UploadFile>, gallery: seq<UploadFile>): seq<Part> {
    FieldParts(f, poster) + BannerParts(banner) + GalleryParts(gallery)
  }

  /** The payload's layout: the five fields and the poster first, the banner
      next when one is chosen, then one entry per gallery file in the order
      they were chosen. */
  lemma PayloadLayout(f: MovieForm, poster: UploadFile, banner: Option<UploadFile>, gallery: seq<UploadFile>)
    ensures |Payload(f, poster, banner, gallery)| == |BannerParts(banner)| + 6 + |gallery|
    ensures Payload(f, poster, banner, gallery)[..6] == FieldParts(f, poster)
    ensures banner.Some? ==> Payload(f, poster, banner, gallery)[6] == FilePart("banner", banner.value)
    ensures forall i | 0 <= i < |gallery| ::
      Payload(f, poster, banner, gallery)[|BannerParts(banner)| + 6 + i] == FilePart("gallery", gallery[i])
  {
    PayloadHead(f, poster, banner, gallery);
    PayloadGallery(f, poster, banner, gallery);
  }

  /** The fixed entries and the banner at the head of the payload. */
  lemma PayloadHead(f: MovieForm, poster: UploadFile, banner: Option<UploadFile>, gallery: seq<UploadFile>)
    ensures |Payload(f, poster, banner, gallery)| == |BannerParts(banner)| + 6 + |gallery|
    ensures Payload(f, poster, banner, gallery)[..6] == FieldParts(f, poster)
    ensures banner.Some? ==> Payload(f, poster, banner, gallery)[6] == FilePart("banner", banner.value)
  {
    var fp, bp := FieldParts(f, poster), BannerParts(banner);
    assert Payload(f, poster, banner, gallery) == fp + (bp + GalleryParts(gallery));
  }

  /** The gallery entries at the tail of the payload. */
  lemma PayloadGallery(f: MovieForm, poster: UploadFile, banner: Option<UploadFile>, gallery: seq<UploadFile>)
    ensures forall i | 0 <= i < |gallery| ::
      Payload(f, poster, banner, gallery)[|BannerParts(banner)| + 6 + i] == FilePart("gallery", gallery[i])
  {
    GalleryAfter(FieldParts(f, poster) + BannerParts(banner), gallery);
  }

  /** Gallery entries appended after any prefix sit right after it, in order. */
  lemma GalleryAfter(pre: seq<Part>, gallery: seq<UploadFile>)
    ensures forall i | 0 <= i < |gallery| :: (pre + GalleryParts(gallery))[|pre| + i] == FilePart("gallery", gallery[i])
  {
  }

  /** `handleSubmit`'s appends: the fixed entries, the banner if any, then
      the `forEach` over the gallery. */
  method BuildPayload(f: MovieForm, poster: UploadFile, banner: Option<UploadFile>, gallery: seq<UploadFile>)
    returns (data: seq<Part>)
    ensures data == Payload(f, poster, banner, gallery)
  {
    data := FieldParts(f, poster);
    if banner.Some? {
      data := data + [FilePart("banner", banner.value)];
    }
    var i := 0;
    while i < |gallery|
      invariant 0 <= i <= |gallery|
      invariant data == FieldParts(f, poster) + BannerParts(banner) + GalleryParts(gallery[..i])
    {
      assert GalleryParts(gallery[..i + 1]) == GalleryParts(gallery[..i]) + [FilePart("gallery", gallery[i])];
      data := data + [FilePart("gallery", gallery[i])];
      i := i + 1;
    }
    assert gallery[..i] == gallery;
  }

  /** The entries of a payload that carry gallery files, in order. */
  function GalleryOf(data: seq<Part>): (g: seq<UploadFile>)
    ensures |g| <= |data|
  {
    if data == [] then []
    else (if data[0].FilePart? && data[0].name == "gallery" then [data[0].file] else []) + GalleryOf(data[1..])
  }

  /** Reading the gallery back out of a payload gives the files in the order
      they were chosen: no file is lost, duplicated or reordered, and neither
      the poster nor the banner is taken for one. */
  lemma {:induction false} GalleryRoundTrip(f: MovieForm, poster: UploadFile, banner: Option<UploadFile>, gallery: seq<UploadFile>)
    ensures GalleryOf(Payload(f, poster, banner, gallery)) == gallery
  {
    var head := FieldParts(f, poster) + BannerParts(banner);
    NoGalleryBefore(head);
    GalleryOfAppend(head, GalleryParts(gallery));
    GalleryOfAllGallery(GalleryParts(gallery), gallery);
  }

  lemma {:induction false} NoGalleryBefore(prefix: seq<Part>)
    requires forall k | 0 <= k < |prefix| :: !(prefix[k].FilePart? && prefix[k].name == "gallery")
    ensures GalleryOf(prefix) == []
  {
    if prefix != [] {
      NoGalleryBefore(prefix[1..]);
    }
  }

  lemma {:induction false} GalleryOfAppend(a: seq<Part>, b: seq<Part>)
    ensures GalleryOf(a + b) == GalleryOf(a) + GalleryOf(b)
  {
    if a == [] {
      assert a + b == b;
    } else {
      assert (a + b)[1..] == a[1..] + b;
      GalleryOfAppend(a[1..], b);
    }
  }

  lemma {:induction false} GalleryOfAllGallery(tail: seq<Part>, gallery: seq<UploadFile>)
    requires |tail| == |gallery|
    requires forall i | 0 <= i < |gallery| :: tail[i] == FilePart("gallery", gallery[i])
    ensures GalleryOf(tail) == gallery
  {
    if tail != [] {
      GalleryOfAllGallery(tail[1..], gallery[1..]);
    }
  }

  /** The upload's headers: the multipart content type together with the
      session's `Authorization` header, when there is a token. */
  function UploadHeaders(token: Option<string>): (h: map<string, string>)
    ensures h.Keys <= {"Content-Type", "Authorization"}
    ensures "Content-Type" in h && h["Content-Type"] == MultipartType
    ensures "Authorization" in h <==> IsTruthy(token)
    ensures "Authorization" in h ==> h["Authorization"] == AuthContext.BearerPrefix + token.value
  {
    AuthContext.AuthHeader(token)["Content-Type" := MultipartType]
  }

  /** The redirect effect: once authentication has loaded, anyone who is not
      an authenticated administrator is sent to the login page. */
  function AdminRedirect(authLoading: bool, isAuthenticated: bool, isAdmin: bool): (r: Option<string>)
    ensures r.Some? <==> !authLoading && !(isAuthenticated && isAdmin)
    ensures r.Some? ==> r.value == LoginPath
  {
    if !authLoading && (!isAuthenticated || !isAdmin) then Some(LoginPath) else None
  }

  /** The panel is rendered only for an authenticated administrator after
      authentication has loaded. */
  predicate ShowsPanel(authLoading: bool, isAuthenticated: bool, isAdmin: bool) {
    !authLoading && isAuthenticated && isAdmin
  }

  /** What the page does with the session store once it has loaded: the
      panel shows exactly for a known administrator whose requests carry a
      bearer header, and the redirect fires exactly when the panel does not
      show. */
  lemma PanelGate(auth: AuthContext.AuthStore)
    ensures var panel := ShowsPanel(auth.loading, auth.IsAuthenticated(), auth.IsAdmin());
      panel <==> !auth.loading && auth.user.Some? && auth.user.value.isAdmin && "Authorization" in auth.GetAuthHeader()
    ensures !auth.loading ==>
      (AdminRedirect(auth.loading, auth.IsAuthenticated(), auth.IsAdmin()).None? <==>
       ShowsPanel(auth.loading, auth.IsAuthenticated(), auth.IsAdmin()))
  {
  }

  /** The message for a failed upload: an expired session for 401 and 403,
      otherwise the server's text or the default. */
  function FailureText(status: Option<int>, serverError: string): (t: string)
    ensures status == Some(401) || status == Some(403) ==> t == SessionExpiredText
    ensures !(status == Some(401) || status == Some(403)) ==> t == OrElse(serverError, AddFailedText)
  {
    if status == Some(401) || status == Some(403) then SessionExpiredText else OrElse(serverError, AddFailedText)
  }

  class AdminPage {
    var form: MovieForm
    var poster: Option<UploadFile>
    var banner: Option<UploadFile>
    var gallery: seq<UploadFile>
    var loading: bool
    var message: Message
    /** The delayed sign-out scheduled after an expired session. */
    var pendingLogout: bool
    var navigatedTo: Option<string>

    constructor ()
      ensures form == EmptyForm && poster == None && banner == None && gallery == []
      ensures !loading && message == Message("", "") && !pendingLogout && navigatedTo == None
    {
      form, poster, banner, gallery := EmptyForm, None, None, [];
      loading, message, pendingLogout, navigatedTo := false, Message("", ""), false, None;
    }

    /** `handleInputChange`. */
    method InputChange(name: FieldName, value: string)
      modifies this`form
      ensures form == SetField(old(form), name, value)
    {
      form := SetField(form, name, value);
    }

    /** `handlePosterChange`: the first chosen file, if any, becomes the
        poster; choosing nothing keeps the previous one. */
    method PosterChange(files: seq<UploadFile>)
      modifies this`poster
      ensures files != [] ==> poster == Some(files[0])
      ensures files == [] ==> poster == old(poster)
    {
      if files != [] {
        poster := Some(files[0]);
      }
    }

    /** `handleBannerChange`, as for the poster. */
    method BannerChange(files: seq<UploadFile>)
      modifies this`banner
      ensures files != [] ==> banner == Some(files[0])
      ensures files == [] ==> banner == old(banner)
    {
      if files != [] {
        banner := Some(files[0]);
      }
    }

    /** `handleGalleryChange`: the chosen files replace the gallery. */
    method GalleryChange(files: Option<seq<UploadFile>>)
      modifies this`gallery
      ensures files.Some? ==> gallery == files.value
      ensures files.None? ==> gallery == old(gallery)
    {
      if files.Some? {
        gallery := files.value;
      }
    }

    /** `handleSubmit`. A failing check shows its error and uploads nothing.
        Otherwise the payload is uploaded with the session's credentials; a
        success shows the confirmation and empties the form and the file
        choices, a 401 or 403 reports the expired session and schedules the
        sign-out, and any other failure shows the server's text or the
        default. Loading is over on every path. */
    method Submit(auth: AuthContext.AuthStore, currentYear: nat, isValidUrl: string -> bool, reply: UploadReply)
      returns (sent: Option<UploadRequest>)
      modifies this
      ensures !loading && navigatedTo == old(navigatedTo)
      ensures sent.Some? <==> AdminError(old(form), old(poster).Some?, currentYear, isValidUrl).None?
      ensures sent.None? ==>
        message == Message("error", FailureMessage(AdminError(old(form), old(poster).Some?, currentYear, isValidUrl).value, currentYear)) &&
        form == old(form) && poster == old(poster) && banner == old(banner) && gallery == old(gallery) &&
        pendingLogout == old(pendingLogout)
      ensures sent.Some? ==>
        sent.value.parts == Payload(old(form), old(poster).value, old(banner), old(gallery)) &&
        sent.value.headers == UploadHeaders(auth.token)
      ensures sent.Some? && reply.Uploaded? ==>
        message == Message("success", AddedText) &&
        form == EmptyForm && poster == None && banner == None && gallery == [] &&
        pendingLogout == old(pendingLogout)
      ensures sent.Some? && reply.UploadFailed? ==>
        message == Message("error", FailureText(reply.status, reply.serverError)) &&
        form == old(form) && poster == old(poster) && banner == old(banner) && gallery == old(gallery) &&
        pendingLogout == (old(pendingLogout) || reply.status == Some(401) || reply.status == Some(403))
    {
      loading := true;
      message := Message("", "");
      var failure := AdminError(form, poster.Some?, currentYear, isValidUrl);
      if failure.Some? {
        message := Message("error", FailureMessage(failure.value, currentYear));
        loading := false;
        return None;
      }
      var data := BuildPayload(form, poster.value, banner, gallery);
      sent := Some(UploadRequest(data, UploadHeaders(auth.token)));
      Settle(reply);
    }

    /** What the reply to the upload does to the page, after which loading
        is over. */
    method Settle(reply: UploadReply)
      modifies this
      ensures !loading && navigatedTo == old(navigatedTo)
      ensures reply.Uploaded? ==>
        message == Message("success", AddedText) &&
        form == EmptyForm && poster == None && banner == None && gallery == [] &&
        pendingLogout == old(pendingLogout)
      ensures reply.UploadFailed? ==>
        message == Message("error", FailureText(reply.status, reply.serverError)) &&
        form == old(form) && poster == old(poster) && banner == old(banner) && gallery == old(gallery) &&
        pendingLogout == (old(pendingLogout) || reply.status == Some(401) || reply.status == Some(403))
    {
      match reply {
        case Uploaded =>
          message := Message("success", AddedText);
          form, poster, banner, gallery := EmptyForm, None, None, [];
        case UploadFailed(status, serverError) =>
          message := Message("error", FailureText(status, serverError));
          if status == Some(401) || status == Some(403) {
            pendingLogout := true;
          }
      }
      loading := false;
    }

    /** The delayed sign-out after an expired session: the session is
        dropped and the login page opens. With nothing scheduled it does
        nothing. */
    method SessionExpiredTimeout(auth: AuthContext.AuthStore)
      requires auth.Valid()
      modifies this`pendingLogout, this`navigatedTo, auth
      ensures auth.Valid()
      ensures old(pendingLogout) ==>
        !pendingLogout && navigatedTo == Some(LoginPath) &&
        auth.token == None && auth.user == None && auth.storage == old(auth.storage) - {AuthContext.TokenKey} &&
        auth.loading == old(auth.loading) && auth.setupRequired == old(auth.setupRequired)
      ensures old(pendingLogout) ==> !auth.IsAuthenticated() && !auth.IsAdmin()
      ensures !old(pendingLogout) ==>
        pendingLogout == old(pendingLogout) && navigatedTo == old(navigatedTo) &&
        auth.token == old(auth.token) && auth.user == old(auth.user) && auth.storage == old(auth.storage) &&
        auth.loading == old(auth.loading) && auth.setupRequired == old(auth.setupRequired)
    {
      if pendingLogout {
        auth.Logout();
        navigatedTo := Some(LoginPath);
        pendingLogout := false;
      }
    }

    /** `handleLogout`: the session is dropped and the home page opens. */
    method Logout(auth: AuthContext.AuthStore)
      requires auth.Valid()
      modifies this`navigatedTo, auth
      ensures auth.Valid()
      ensures navigatedTo == Some(HomePath)
      ensures auth.token == None && auth.user == None && auth.storage == old(auth.storage) - {AuthContext.TokenKey}
      ensures auth.loading == old(auth.loading) && auth.setupRequired == old(auth.setupRequired)
      ensures !auth.IsAuthenticated() && !auth.IsAdmin()
    {
      auth.Logout();
      navigatedTo := Some(HomePath);
    }
  }
}
