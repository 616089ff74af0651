/**
 * The route endpoints of `GET /get_route`: a `"lat,lon"` text cut at commas and
 * read as (latitude, longitude), then turned around for the planner, which reads
 * longitude first.
 */
module Endpoint {
  import opened Outcomes
  import opened Text

  /** The separator between the two numbers of an endpoint. */
  const Comma: char := ','

  /** Why an endpoint text is refused. */
  datatype EndpointError =
    | NotANumber(part: nat)  // `float()` raises ValueError on the part with this index
    | MissingPart            // indexing the second part raises IndexError

  /**
   * The (latitude, longitude) pair written in an endpoint text. Number syntax is
   * the `parse` parameter. The first part is converted before the second part is
   * looked up, so a text without a comma fails on its first number when that does
   * not parse, and parts after the second are never looked at.
   */
  function ParseEndpoint(text: string, parse: string -> Option<real>): (r: Result<(real, real), EndpointError>)
    ensures var parts := Split(text, Comma);
      && (r.Ok? <==> |parts| >= 2 && parse(parts[0]).Some? && parse(parts[1]).Some?)
      && (r.Ok? ==> r.value == (parse(parts[0]).value, parse(parts[1]).value))
      && (r == Err(NotANumber(0)) <==> parse(parts[0]).None?)
      && (r == Err(MissingPart) <==> parse(parts[0]).Some? && |parts| < 2)
      && (r == Err(NotANumber(1)) <==> parse(parts[0]).Some? && |parts| >= 2 && parse(parts[1]).None?)
  {
    var parts := Split(text, Comma);
    match parse(parts[0])
    case None => Err(NotANumber(0))
    case Some(lat) =>
      if |parts| < 2 then Err(MissingPart)
      else
        match parse(parts[1])
        case None => Err(NotANumber(1))
        case Some(lon) => Ok((lat, lon))
  }

  /**
   * An endpoint written as comma-free parts joined by commas is read from its
   * first two parts alone; whatever follows the second comma is ignored.
   */
  lemma EndpointFromParts(parts: seq<string>, parse: string -> Option<real>)
    requires |parts| >= 2 && SeparatorFree(parts, Comma)
    ensures var a, b := parse(parts[0]), parse(parts[1]);
      ParseEndpoint(Join(parts, Comma), parse)
        == if a.None? then Err(NotANumber(0))
           else if b.None? then Err(NotANumber(1))
           else Ok((a.value, b.value))
  {
    SplitJoin(parts, Comma);
  }

  /** A text without a comma never yields an endpoint. */
  lemma EndpointNeedsComma(text: string, parse: string -> Option<real>)
    requires Comma !in text
    ensures ParseEndpoint(text, parse).Err?
  {
  }

  /** The tuple reversal `[::-1]` applied to a two-element pair. */
  function Swap(p: (real, real)): (r: (real, real))
    ensures (r.1, r.0) == p
  {
    (p.1, p.0)
  }

  /** Reversing twice gives the pair back, and reversal exchanges the two components. */
  lemma SwapInvolution(p: (real, real))
    ensures Swap(Swap(p)) == p
    ensures Swap(p).0 == p.1 && Swap(p).1 == p.0
  {
  }
}
