/** The request parameters of the HTTP server's handlers: the width, height and
    image address taken from the path. */
module Server {
  import opened Common
  import opened Strconv

  /** `getParameters`' four results: width, height, the address with its scheme,
      and the error; on an error the other three are zero values. */
  datatype Params = Params(width: int, height: int, url: string, err: Option<Error>)

  /** `getParameters`: all three must be present; then the width and the height are
      parsed in that order, the first failure is returned; the address gets the
      "http://" scheme. */
  function GetParameters(width: string, height: string, imageUrl: string): Params
  {
    if width == "" || height == "" || imageUrl == "" then Params(0, 0, "", Some(NotEnoughParameters(ServerPkg)))
    else match Atoi(width)
      case Err(e) => Params(0, 0, "", Some(e))
      case Ok(w) =>
        match Atoi(height)
        case Err(e) => Params(0, 0, "", Some(e))
        case Ok(h) => Params(w, h, "http://" + imageUrl, None)
  }

  /** A missing parameter is reported exactly when one of the three is empty, ahead
      of any parse error; every error comes with zero values. */
  lemma ParametersMissing(width: string, height: string, imageUrl: string)
    ensures GetParameters(width, height, imageUrl).err == Some(NotEnoughParameters(ServerPkg)) <==>
      width == "" || height == "" || imageUrl == ""
    ensures var p := GetParameters(width, height, imageUrl);
      p.err.Some? ==> p.width == 0 && p.height == 0 && p.url == ""
  {
    if width != "" && height != "" && imageUrl != "" {
      AtoiErrors(width);
      AtoiErrors(height);
    }
  }

  /** With all three present, a bad width is reported before a bad height, and
      success means both parse, with their values and the address behind
      "http://". */
  lemma ParametersParsed(width: string, height: string, imageUrl: string)
    requires width != "" && height != "" && imageUrl != ""
    ensures var p := GetParameters(width, height, imageUrl);
      && (Atoi(width).Err? ==> p.err == Some(Atoi(width).error))
      && (Atoi(width).Ok? && Atoi(height).Err? ==> p.err == Some(Atoi(height).error))
      && (p.err.None? <==> Atoi(width).Ok? && Atoi(height).Ok?)
      && (p.err.None? ==> p == Params(Atoi(width).value, Atoi(height).value, "http://" + imageUrl, None))
  {
  }

  /** The parameters round-trip: the decimal forms of two `int64`s and an address
      give back the numbers and the address with its scheme. */
  lemma ParametersRoundTrip(w: int, h: int, imageUrl: string)
    requires InInt64(w) && InInt64(h) && imageUrl != ""
    ensures GetParameters(Itoa(w), Itoa(h), imageUrl) == Params(w, h, "http://" + imageUrl, None)
  {
    AtoiItoa(w);
    AtoiItoa(h);
    ItoaSign(w);
    ItoaSign(h);
  }
}
