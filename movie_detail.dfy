/** The movie detail page: fetching the movie for the id in the address,
    which of the loading, not-found and detail views it shows, the document
    title, the banner with its fall-back to the poster, the gallery and the
    action links. */
module MovieDetail {
  import opened Wrappers
  import opened JsText
  import opened MovieCard

  const NotFoundText := "Movie not found"
  const TitleSuffix := " - MovieBuzz"
  const DefaultTitle := "Movie Details - MovieBuzz"
  const MoviesEndpoint := "/api/movies/"

  /** `movie.banner || movie.poster`, resolved to an address. */
  function BannerUrl(m: Movie, apiUrl: string): (url: string)
    ensures IsTruthy(m.banner) ==> url == ImageUrl(m.banner, apiUrl)
    ensures !IsTruthy(m.banner) ==> url == ImageUrl(m.poster, apiUrl)
  {
    ImageUrl(if IsTruthy(m.banner) then m.banner else m.poster, apiUrl)
  }

  /** A movie with neither a banner nor a poster has no banner address. */
  lemma NoImagesNoBanner(m: Movie, apiUrl: string)
    requires !IsTruthy(m.banner) && !IsTruthy(m.poster)
    ensures BannerUrl(m, apiUrl) == []
  {
  }

  /** One gallery image as the page shows it. */
  datatype GalleryImage = GalleryImage(src: string, alt: string)

  /** The gallery section: one image per gallery path, in order, resolved
      to an address and labelled with the title and its position counted
      from 1; nothing when the movie has no gallery. */
  function GalleryImages(m: Movie, apiUrl: string): (images: seq<GalleryImage>)
    ensures m.gallery.None? ==> images == []
    ensures m.gallery.Some? ==> |images| == |m.gallery.value|
    ensures m.gallery.Some? ==> forall i | 0 <= i < |images| ::
      images[i].src == ImageUrl(Some(m.gallery.value[i]), apiUrl) &&
      images[i].alt == m.title + " - Image " + NatToString(i + 1)
  {
    if m.gallery.None? then []
    else
      var g := m.gallery.value;
      seq(|g|, i requires 0 <= i < |g| =>
        GalleryImage(ImageUrl(Some(g[i]), apiUrl), m.title + " - Image " + NatToString(i + 1)))
  }

  /** The gallery labels tell the images apart: no two positions get the
      same label. */
  lemma GalleryLabelsDistinct(m: Movie, apiUrl: string, i: nat, j: nat)
    requires m.gallery.Some? && i < j < |m.gallery.value|
    ensures GalleryImages(m, apiUrl)[i].alt != GalleryImages(m, apiUrl)[j].alt
  {
    var images := GalleryImages(m, apiUrl);
    var prefix := m.title + " - Image ";
    var a, b := NatToString(i + 1), NatToString(j + 1);
    assert images[i].alt == prefix + a && images[j].alt == prefix + b;
    assert (prefix + a)[|prefix|..] == a && (prefix + b)[|prefix|..] == b;
    assert DigitsValue(a) != DigitsValue(b);
  }

  /** The action links: each is shown only when its address is present and
      non-empty. */
  function DownloadHref(m: Movie): (href: Option<string>)
    ensures href.Some? <==> IsTruthy(m.downloadLink)
    ensures href.Some? ==> href == m.downloadLink
  {
    if IsTruthy(m.downloadLink) then m.downloadLink else None
  }

  function StreamingHref(m: Movie): (href: Option<string>)
    ensures href.Some? <==> IsTruthy(m.streamingLink)
    ensures href.Some? ==> href == m.streamingLink
  {
    if IsTruthy(m.streamingLink) then m.streamingLink else None
  }

  /** The document title: the movie's title and year, or the generic title
      while there is no movie. */
  function PageTitle(movie: Option<Movie>): (t: string)
    ensures movie.None? ==> t == DefaultTitle
    ensures movie.Some? ==>
      t == movie.value.title + " (" + NatToString(movie.value.year) + ")" + TitleSuffix
  {
    if movie.Some? then movie.value.title + " (" + NatToString(movie.value.year) + ")" + TitleSuffix
    else DefaultTitle
  }

  /** What the page renders. */
  datatype View = LoadingView | NotFoundView(message: string) | DetailView(movie: Movie)

  /** The render branches: the spinner while loading, the not-found view
      when there is an error or no movie (with the error, or the default
      text), and the details otherwise. */
  function ViewOf(loading: bool, error: Option<string>, movie: Option<Movie>): (v: View)
    ensures loading <==> v.LoadingView?
    ensures v.DetailView? <==> !loading && !IsTruthy(error) && movie.Some?
    ensures v.DetailView? ==> v.movie == movie.value
    ensures v.NotFoundView? ==> v.message == (if IsTruthy(error) then error.value else NotFoundText)
  {
    if loading then LoadingView
    else if IsTruthy(error) || movie.None? then NotFoundView(if IsTruthy(error) then error.value else NotFoundText)
    else DetailView(movie.value)
  }

  class MovieDetailPage {
    const id: string
    var movie: Option<Movie>
    var loading: bool
    var error: Option<string>

    function View(): View
      reads this
    {
      ViewOf(loading, error, movie)
    }

    constructor (id: string)
      ensures this.id == id && movie == None && loading && error == None
      ensures View() == LoadingView
    {
      this.id := id;
      movie, loading, error := None, true, None;
    }

    /** `fetchMovie`, with the reply to `GET /api/movies/<id>`: the movie, or
        `None` when the request fails. A success shows the movie and clears
        any error; a failure shows "Movie not found" and keeps whatever movie
        was loaded before. Loading is over either way. */
    method FetchMovie(reply: Option<Movie>) returns (requestPath: string)
      modifies this`movie, this`loading, this`error
      ensures requestPath == MoviesEndpoint + id
      ensures !loading
      ensures reply.Some? ==> movie == reply && error == None && View() == DetailView(reply.value)
      ensures reply.None? ==>
        movie == old(movie) && error == Some(NotFoundText) && View() == NotFoundView(NotFoundText)
    {
      loading := true;
      requestPath := MoviesEndpoint + id;
      match reply {
        case Some(m) =>
          movie := Some(m);
          error := None;
        case None =>
          error := Some(NotFoundText);
      }
      loading := false;
    }
  }
}
