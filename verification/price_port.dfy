/** The booking service's price lookup against the resource catalogue. The
    HTTP exchange itself is outside the model: the request the service would
    send is computed, and the reply (or the exception) is an input. */
module PricePort {
  import opened Wrappers
  import opened Text
  import opened Decimals

  /** The default base address of the resource catalogue. */
  const DefaultResourceServiceUrl: string := "http://file-service:8081"

  /** The `pricePerHour` entry of a reply body: a JSON number, a string,
      something else, or null. */
  datatype PriceField = NumberField(amount: Decimal) | TextField(text: string) | OtherField | NullField

  /** What the exchange produced: the not-found exception, any other
      exception (transport, server, client errors), or a reply with a
      status code and a possibly null body. */
  datatype PriceReply =
    | NotFoundError
    | ExchangeError
    | Reply(status: int, body: Option<map<string, PriceField>>)

  /** The GET the service sends. */
  datatype PriceRequest = PriceRequest(url: string, authorization: Option<string>)

  /** The request for a resource's price: the item address of the catalogue,
      and the caller's token forwarded as a bearer credential when present. */
  function PriceRequestFor(baseUrl: string, resourceId: int, bearerToken: Option<string>): (r: PriceRequest)
    ensures StartsWith(r.url, baseUrl + "/resources/")
    ensures IsLong(resourceId) ==> ParseLong(r.url[|baseUrl + "/resources/"|..]) == Some(resourceId)
    ensures r.authorization.Some? <==> bearerToken.Some?
    ensures bearerToken.Some? ==> r.authorization.value == "Bearer " + bearerToken.value
  {
    var prefix := baseUrl + "/resources/";
    var url := prefix + LongText(resourceId);
    assert url[..|prefix|] == prefix;
    assert url[|prefix|..] == LongText(resourceId);
    assert IsLong(resourceId) ==> ParseLong(LongText(resourceId)) == Some(resourceId) by {
      if IsLong(resourceId) {
        ParseLongText(resourceId);
      }
    }
    PriceRequest(url, if bearerToken.Some? then Some("Bearer " + bearerToken.value) else None)
  }

  predicate IsSuccessful(status: int) {
    200 <= status < 300
  }

  /** The hourly price read from the reply, or `None` for every failure:
      the not-found exception, any other exception, a status outside 2xx, a
      null body, a missing, null or ill-typed `pricePerHour`, and text that
      does not parse as a decimal. */
  function GetResourcePrice(reply: PriceReply): (r: Option<Decimal>)
    ensures r.Some? ==> reply.Reply? && IsSuccessful(reply.status) && reply.body.Some?
                        && "pricePerHour" in reply.body.value
  {
    match reply
    case NotFoundError => None
    case ExchangeError => None
    case Reply(status, body) =>
      if !IsSuccessful(status) || body.None? || "pricePerHour" !in body.value then None
      else
        match body.value["pricePerHour"]
        case NumberField(amount) => Some(amount)
        case TextField(text) => ParseDecimal(text)
        case OtherField => None
        case NullField => None
  }

  /** A price sent as text is read back exactly, scale included. */
  lemma TextPriceIsParsed(status: int, body: map<string, PriceField>, d: Decimal)
    requires IsSuccessful(status)
    requires "pricePerHour" in body && body["pricePerHour"] == TextField(DecimalText(d))
    ensures GetResourcePrice(Reply(status, Some(body))) == Some(d)
  {
    DecimalTextRoundTrip(d);
  }

  /** A numeric price is taken as it is. */
  lemma NumberPriceIsTaken(status: int, body: map<string, PriceField>, d: Decimal)
    requires IsSuccessful(status)
    requires "pricePerHour" in body && body["pricePerHour"] == NumberField(d)
    ensures GetResourcePrice(Reply(status, Some(body))) == Some(d)
  {
  }

  /** The lookup does not tell a missing resource from a failed exchange:
      both come back as no price. */
  lemma NotFoundLooksLikeAnyFailure()
    ensures GetResourcePrice(NotFoundError) == GetResourcePrice(ExchangeError) == None
  {
  }

  /** A reply outside 2xx, or with no body, gives no price whatever it holds. */
  lemma UnsuccessfulOrEmptyRepliesGiveNoPrice(status: int, body: Option<map<string, PriceField>>)
    requires !IsSuccessful(status) || body.None?
    ensures GetResourcePrice(Reply(status, body)) == None
  {
  }

  /** "25.50" per hour is the decimal 25.50, with two places. */
  lemma TextPriceExample()
    ensures GetResourcePrice(Reply(200, Some(map["pricePerHour" := TextField("25.50")]))) == Some(Decimal(2550, 2))
  {
    assert DecimalText(Decimal(2550, 2)) == "25.50" by {
      assert NatText(2550) == "2550";
      assert Padded(2550, 3) == "2550";
    }
    DecimalTextRoundTrip(Decimal(2550, 2));
  }
}
