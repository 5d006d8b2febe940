/** The application layer: the parameters of a resize request, its cache key, the
    cache-then-download lookup of the source image and the resize with its cache
    write. The cache, the downloader and the image codecs are the application's
    collaborators and appear as functions supplied by the caller. */
module App {
  import opened Common
  import opened Strconv
  import opened Images
  import Server

  /** Request headers, forwarded to the downloader. */
  type Headers = map<string, seq<string>>

  /** The collaborators: the cache's `Get` and `Put` and the downloader's `GetImage`. */
  datatype Deps = Deps(
    get: string -> Lookup,
    put: (string, Bytes) -> Option<Error>,
    download: (string, Headers) -> Result<Bytes>)

  /** A parsed request: the target size and the image address with its scheme. */
  datatype Request = Request(width: int, height: int, url: string)

  /** `getParameters`: the same checks as the server's, in the same order. */
  function GetParameters(ws: string, hs: string, url: string): Result<Request>
  {
    if ws == "" || hs == "" || url == "" then Err(NotEnoughParameters(AppPkg))
    else match Atoi(ws)
      case Err(e) => Err(e)
      case Ok(wi) =>
        match Atoi(hs)
        case Err(e) => Err(e)
        case Ok(hi) => Ok(Request(wi, hi, "http://" + url))
  }

  /** `getCacheKey`: `fmt.Sprintf("%d-%d-%s-%s", wi, hi, url, action)`. */
  function GetCacheKey(wi: int, hi: int, url: string, action: string): string
  {
    Itoa(wi) + "-" + (Itoa(hi) + "-" + (url + "-" + action))
  }

  /** The source image and whether it came from the cache. */
  datatype Fetched = Fetched(data: Bytes, cached: bool)

  /** `getImage`: a cache error is returned; a hit is the image, from the cache;
      a miss downloads it. */
  function GetImage(ck: string, url: string, hdr: Headers, deps: Deps): Result<Fetched>
  {
    match deps.get(ck)
    case Failed(e) => Err(e)
    case Hit(data) => Ok(Fetched(data, true))
    case Miss =>
      match deps.download(url, hdr)
      case Err(e) => Err(e)
      case Ok(data) => Ok(Fetched(data, false))
  }

  /** What `Fill` returns, and the `Put` it issued, if any. */
  datatype Filled = Filled(result: Result<Bytes>, stored: Option<(string, Bytes)>)

  /** `Fill`: parse, look the image up, decode it, refuse a target larger than it,
      resample and encode; an image that did not come from the cache is then put
      under the request's key, and a failed `Put` fails the request. */
  function Fill<Img>(ws: string, hs: string, url: string, hdr: Headers, deps: Deps, codec: Codec<Img>): Filled
  {
    match GetParameters(ws, hs, url)
    case Err(e) => Filled(Err(e), None)
    case Ok(req) =>
      var ck := GetCacheKey(req.width, req.height, req.url, "resize");
      match GetImage(ck, req.url, hdr, deps)
      case Err(e) => Filled(Err(e), None)
      case Ok(fetched) =>
        match codec.decode(fetched.data)
        case Err(e) => Filled(Err(e), None)
        case Ok(img) =>
          var b := codec.bounds(img);
          if req.width > b.Dx() || req.height > b.Dy() then Filled(Err(InvalidSize(AppPkg)), None)
          else
            match codec.encode(codec.fill(img, req.width, req.height))
            case Err(e) => Filled(Err(e), None)
            case Ok(out) =>
              if fetched.cached then Filled(Ok(out), None)
              else
                match deps.put(ck, out)
                case Some(e) => Filled(Err(e), Some((ck, out)))
                case None => Filled(Ok(out), Some((ck, out)))
  }

  /** The two `getParameters` agree: they fail on the same inputs, a missing
      parameter is each package's own `ErrNotEnoughParameters`, any other error is
      the same `Atoi` error, and a request here is the server's three values. */
  lemma ParametersAgree(ws: string, hs: string, url: string)
    ensures var p := Server.GetParameters(ws, hs, url);
      && (GetParameters(ws, hs, url).Err? <==> p.err.Some?)
      && (p.err == Some(NotEnoughParameters(ServerPkg)) <==> GetParameters(ws, hs, url) == Err(NotEnoughParameters(AppPkg)))
      && (p.err.Some? && p.err != Some(NotEnoughParameters(ServerPkg)) ==> GetParameters(ws, hs, url) == Err(p.err.value))
      && (GetParameters(ws, hs, url).Ok? ==> GetParameters(ws, hs, url).value == Request(p.width, p.height, p.url))
  {
    if ws != "" && hs != "" && url != "" {
      AtoiErrors(ws);
      AtoiErrors(hs);
    }
  }

  /** Distinct requests have distinct keys: the width, the height and the address
      can be read back from a key of a known action. */
  lemma CacheKeyInjective(w1: int, h1: int, u1: string, w2: int, h2: int, u2: string, action: string)
    requires GetCacheKey(w1, h1, u1, action) == GetCacheKey(w2, h2, u2, action)
    ensures w1 == w2 && h1 == h2 && u1 == u2
  {
    var t1, t2 := u1 + "-" + action, u2 + "-" + action;
    ItoaDash(w1, w2, Itoa(h1) + "-" + t1, Itoa(h2) + "-" + t2);
    ItoaDash(h1, h2, t1, t2);
    assert u1 == t1[..|u1|] == t2[..|u2|] == u2;
  }

  /** A cache error is the result and the downloader is not consulted. */
  lemma GetImageFailed(ck: string, url: string, hdr: Headers, deps: Deps, download: (string, Headers) -> Result<Bytes>)
    requires deps.get(ck).Failed?
    ensures GetImage(ck, url, hdr, deps) == Err(deps.get(ck).err)
    ensures GetImage(ck, url, hdr, deps.(download := download)) == GetImage(ck, url, hdr, deps)
  {
  }

  /** A hit is the cached image, marked as cached, and the downloader is not
      consulted. */
  lemma GetImageHit(ck: string, url: string, hdr: Headers, deps: Deps, download: (string, Headers) -> Result<Bytes>)
    requires deps.get(ck).Hit?
    ensures GetImage(ck, url, hdr, deps) == Ok(Fetched(deps.get(ck).data, true))
    ensures GetImage(ck, url, hdr, deps.(download := download)) == GetImage(ck, url, hdr, deps)
  {
  }

  /** A miss is the download of the address with the request's headers, not marked
      as cached, or the downloader's error. */
  lemma GetImageMiss(ck: string, url: string, hdr: Headers, deps: Deps)
    requires deps.get(ck) == Miss
    ensures deps.download(url, hdr).Ok? ==> GetImage(ck, url, hdr, deps) == Ok(Fetched(deps.download(url, hdr).value, false))
    ensures deps.download(url, hdr).Err? ==> GetImage(ck, url, hdr, deps) == Err(deps.download(url, hdr).error)
  {
  }

  /** `Fill` writes to the cache only under the request's "resize" key, only what it
      returns or fails on with the write's error, and only an image that was not
      found in the cache. */
  lemma FillPut<Img>(ws: string, hs: string, url: string, hdr: Headers, deps: Deps, codec: Codec<Img>)
    ensures var f := Fill(ws, hs, url, hdr, deps, codec);
      f.stored.Some? ==>
        && GetParameters(ws, hs, url).Ok?
        && var req := GetParameters(ws, hs, url).value;
           var (ck, out) := f.stored.value;
        && ck == GetCacheKey(req.width, req.height, req.url, "resize")
        && deps.get(ck) == Miss
        && f.result == (if deps.put(ck, out).Some? then Err(deps.put(ck, out).value) else Ok(out))
  {
  }

  /** A downloaded image that decodes, fits and encodes is always written to the
      cache, under the request's key. */
  lemma FillMissStores<Img>(ws: string, hs: string, url: string, hdr: Headers, deps: Deps, codec: Codec<Img>)
    requires GetParameters(ws, hs, url).Ok?
    requires var req := GetParameters(ws, hs, url).value;
      && deps.get(GetCacheKey(req.width, req.height, req.url, "resize")) == Miss
      && deps.download(req.url, hdr).Ok?
      && codec.decode(deps.download(req.url, hdr).value).Ok?
      && var img := codec.decode(deps.download(req.url, hdr).value).value;
      && req.width <= codec.bounds(img).Dx() && req.height <= codec.bounds(img).Dy()
      && codec.encode(codec.fill(img, req.width, req.height)).Ok?
    ensures var req := GetParameters(ws, hs, url).value;
      var img := codec.decode(deps.download(req.url, hdr).value).value;
      Fill(ws, hs, url, hdr, deps, codec).stored ==
        Some((GetCacheKey(req.width, req.height, req.url, "resize"), codec.encode(codec.fill(img, req.width, req.height)).value))
  {
  }

  /** On a cache hit nothing is written and nothing downloaded: the downloader and
      the cache's `Put` do not affect the result. */
  lemma FillHit<Img>(ws: string, hs: string, url: string, hdr: Headers, deps: Deps, codec: Codec<Img>,
                     download: (string, Headers) -> Result<Bytes>, put: (string, Bytes) -> Option<Error>)
    requires GetParameters(ws, hs, url).Ok?
    requires var req := GetParameters(ws, hs, url).value;
      deps.get(GetCacheKey(req.width, req.height, req.url, "resize")).Hit?
    ensures Fill(ws, hs, url, hdr, deps, codec).stored == None
    ensures Fill(ws, hs, url, hdr, deps.(download := download, put := put), codec) == Fill(ws, hs, url, hdr, deps, codec)
  {
  }
}
