/** The record updater: the guard, request and verdict of one PUT to the DNS provider. */
module Updater {
  import opened Wrappers
  import opened Text
  import opened Seqs

  /** Base URL of the provider's API. */
  const CloudflareApi: string := "https://api.cloudflare.com/client/v4"

  const ZonesPrefix: string := CloudflareApi + "/zones/"
  const RecordsInfix: string := "/dns_records/"

  /** The four settings read from the environment on every attempt. */
  datatype Config = Config(apiToken: string, zoneId: string, recordId: string, recordName: string)

  /** Every required setting is present (non-empty). */
  predicate Complete(c: Config) {
    c.apiToken != "" && c.zoneId != "" && c.recordId != "" && c.recordName != ""
  }

  /** The desired state of the record, as sent in the request body. */
  datatype UpdateDnsRequest = UpdateDnsRequest(recordType: string, name: string, content: string, ttl: int, proxied: bool)

  /** The PUT as handed to the HTTP client. */
  datatype PutRequest = PutRequest(verb: string, url: string, authorization: string, contentType: string, body: UpdateDnsRequest)

  datatype ApiError = ApiError(message: string)

  /** The provider's reply after decoding. */
  datatype CloudflareResponse = CloudflareResponse(success: bool, errors: seq<ApiError>)

  /** How far the exchange with the provider got: marshalling, request construction,
      the HTTP round trip and decoding are outside the model and arrive as this input. */
  datatype Exchange =
    | MarshalFailed(cause: string)
    | BuildFailed(cause: string)
    | SendFailed(cause: string)
    | DecodeFailed(cause: string)
    | Decoded(response: CloudflareResponse)

  datatype UpdateError =
    | MissingConfig
    | MarshalError(cause: string)
    | BuildError(cause: string)
    | SendError(cause: string)
    | DecodeError(cause: string)
    | Rejected(errors: seq<ApiError>)

  /** What one call did: the PUT it handed to the HTTP client, if any, and its verdict. */
  datatype Attempt = Attempt(sent: Option<PutRequest>, outcome: Result<(), UpdateError>)

  /** The per-record endpoint, addressed by zone and record identifiers. */
  function RecordUrl(zoneId: string, recordId: string): string {
    ZonesPrefix + zoneId + RecordsInfix + recordId
  }

  /** Reads the zone and record identifiers back out of a per-record URL; the zone
      identifier runs up to the first '/' after the zones prefix. */
  function ParseRecordUrl(url: string): Option<(string, string)> {
    if |url| < |ZonesPrefix| || url[..|ZonesPrefix|] != ZonesPrefix then None
    else
      var rest := url[|ZonesPrefix|..];
      var k := FirstIndex(rest, '/');
      var tail := rest[k..];
      if |tail| < |RecordsInfix| || tail[..|RecordsInfix|] != RecordsInfix then None
      else Some((rest[..k], tail[|RecordsInfix|..]))
  }

  /** The URL determines the zone and record it was built from, provided the zone
      identifier contains no '/' (the provider's identifiers are hexadecimal). */
  lemma RecordUrlRoundTrip(zoneId: string, recordId: string)
    ensures '/' !in zoneId ==> ParseRecordUrl(RecordUrl(zoneId, recordId)) == Some((zoneId, recordId))
  {
    if '/' in zoneId { return; }
    var url := RecordUrl(zoneId, recordId);
    assert url[..|ZonesPrefix|] == ZonesPrefix;
    var rest := url[|ZonesPrefix|..];
    assert rest == zoneId + RecordsInfix + recordId;
    FirstSlashAfterZone(zoneId, RecordsInfix + recordId);
    assert rest == zoneId + (RecordsInfix + recordId);
    var k := FirstIndex(rest, '/');
    assert k == |zoneId|;
    assert rest[..k] == zoneId;
    assert rest[k..] == RecordsInfix + recordId;
  }

  lemma FirstSlashAfterZone(a: string, b: string)
    requires '/' !in a
    requires |b| > 0 && b[0] == '/'
    ensures FirstIndex(a + b, '/') == |a|
  {
    assert (a + b)[..|a|] == a;
    assert (a + b)[|a|] == '/';
  }

  /** Every URL the parser accepts is a per-record URL with a '/'-free zone identifier. */
  lemma ParseRecordUrlSound(url: string, zoneId: string, recordId: string)
    requires ParseRecordUrl(url) == Some((zoneId, recordId))
    ensures '/' !in zoneId
    ensures RecordUrl(zoneId, recordId) == url
  {
    var rest := url[|ZonesPrefix|..];
    var k := FirstIndex(rest, '/');
    Reassemble(url, ZonesPrefix, RecordsInfix, k);
  }

  /** A string made of a prefix, a part of length `k`, an infix and the remainder is the
      concatenation of the four. */
  lemma Reassemble(url: string, prefix: string, infix: string, k: nat)
    requires |prefix| <= |url| && url[..|prefix|] == prefix
    requires k <= |url| - |prefix|
    requires |infix| <= |url[|prefix|..][k..]| && url[|prefix|..][k..][..|infix|] == infix
    ensures url == prefix + url[|prefix|..][..k] + infix + url[|prefix|..][k..][|infix|..]
  {
    var rest := url[|prefix|..];
    var tail := rest[k..];
    assert tail == infix + tail[|infix|..];
    assert rest == rest[..k] + tail;
    assert url == prefix + rest;
  }

  /** Go's `%+v` rendering of one provider error. */
  function ItemText(e: ApiError): string {
    "{Message:" + e.message + "}"
  }

  /** The elements of the errors slice under `%+v`, separated by single spaces. */
  function ItemsText(errs: seq<ApiError>): string {
    if |errs| == 0 then ""
    else if |errs| == 1 then ItemText(errs[0])
    else ItemText(errs[0]) + " " + ItemsText(errs[1..])
  }

  /** The whole errors slice under `%+v`. */
  function ErrorsText(errs: seq<ApiError>): string {
    "[" + ItemsText(errs) + "]"
  }

  /** The text of the error value the updater returns: every text names what caused it,
      the wrapped cause or every message the provider reported. */
  function ErrorText(e: UpdateError): (r: string)
    ensures e.MissingConfig? ==> r == "missing one or more required environment variables"
    ensures !e.MissingConfig? && !e.Rejected? ==> Contains(r, e.cause)
    ensures e.Rejected? ==> forall i :: 0 <= i < |e.errors| ==> Contains(r, e.errors[i].message)
  {
    match e
    case MissingConfig => "missing one or more required environment variables"
    case MarshalError(cause) =>
      ContainsSuffix("failed to marshal update request: ", cause);
      "failed to marshal update request: " + cause
    case BuildError(cause) =>
      ContainsSuffix("failed to build request: ", cause);
      "failed to build request: " + cause
    case SendError(cause) =>
      ContainsSuffix("failed to send update request: ", cause);
      "failed to send update request: " + cause
    case DecodeError(cause) =>
      ContainsSuffix("failed to parse Cloudflare response: ", cause);
      "failed to parse Cloudflare response: " + cause
    case Rejected(errs) =>
      ErrorsTextMentionsEveryMessage("Cloudflare API returned error: ", errs);
      "Cloudflare API returned error: " + ErrorsText(errs)
  }

  lemma {:induction false} ItemsTextMentions(errs: seq<ApiError>, i: nat)
    requires i < |errs|
    ensures Contains(ItemsText(errs), errs[i].message)
    decreases |errs|
  {
    if |errs| == 1 || i == 0 {
      ContainsMiddle("{Message:", errs[0].message, "}");
      if |errs| > 1 {
        ContainsExtendRight(ItemText(errs[0]), errs[0].message, " " + ItemsText(errs[1..]));
        assert ItemText(errs[0]) + (" " + ItemsText(errs[1..])) == ItemsText(errs);
      }
    } else {
      ItemsTextMentions(errs[1..], i - 1);
      ContainsExtendLeft(ItemText(errs[0]) + " ", ItemsText(errs[1..]), errs[i].message);
    }
  }

  /** The `%+v` rendering of the errors slice, after any prefix, names every message the
      provider reported. */
  lemma ErrorsTextMentionsEveryMessage(prefix: string, errs: seq<ApiError>)
    ensures forall i :: 0 <= i < |errs| ==> Contains(prefix + ErrorsText(errs), errs[i].message)
  {
    forall i | 0 <= i < |errs|
      ensures Contains(prefix + ErrorsText(errs), errs[i].message)
    {
      ItemsTextMentions(errs, i);
      ContainsExtendLeft("[", ItemsText(errs), errs[i].message);
      ContainsExtendRight("[" + ItemsText(errs), errs[i].message, "]");
      ContainsExtendLeft(prefix, ErrorsText(errs), errs[i].message);
    }
  }

  /** The verdict on a decoded reply: the success flag alone decides. */
  function Verdict(resp: CloudflareResponse): (r: Result<(), UpdateError>)
    ensures r.Success? <==> resp.success
    ensures r.Failure? ==> r.error == Rejected(resp.errors)
  {
    if !resp.success then Failure(Rejected(resp.errors)) else Success(())
  }

  /** One call of the updater for address `ip`, given the configuration and the way the
      exchange with the provider ends. */
  function UpdateRecord(c: Config, ip: string, ex: Exchange): (a: Attempt)
    // guard: a missing setting fails before any request is built or sent
    ensures a.outcome == Failure(MissingConfig) <==> !Complete(c)
    ensures !Complete(c) ==> a.sent.None?
    // the PUT reaches the client exactly when construction succeeded
    ensures a.sent.Some? <==> Complete(c) && (ex.SendFailed? || ex.DecodeFailed? || ex.Decoded?)
    ensures a.sent.Some? ==>
      && a.sent.value.verb == "PUT"
      && ('/' !in c.zoneId ==> ParseRecordUrl(a.sent.value.url) == Some((c.zoneId, c.recordId)))
      && a.sent.value.url == RecordUrl(c.zoneId, c.recordId)
      && a.sent.value.authorization == "Bearer " + c.apiToken
      && a.sent.value.contentType == "application/json"
      && a.sent.value.body == UpdateDnsRequest("A", c.recordName, ip, 1, false)
    // verdict: success exactly when the decoded reply says so, whatever its errors list holds
    ensures a.outcome.Success? <==> Complete(c) && ex.Decoded? && ex.response.success
    ensures Complete(c) && ex.Decoded? && !ex.response.success ==>
      a.outcome == Failure(Rejected(ex.response.errors))
    ensures Complete(c) && !ex.Decoded? ==> a.outcome.Failure? && a.outcome.error != MissingConfig
    ensures Complete(c) && ex.MarshalFailed? ==> a.outcome == Failure(MarshalError(ex.cause))
    ensures Complete(c) && ex.BuildFailed? ==> a.outcome == Failure(BuildError(ex.cause))
    ensures Complete(c) && ex.SendFailed? ==> a.outcome == Failure(SendError(ex.cause))
    ensures Complete(c) && ex.DecodeFailed? ==> a.outcome == Failure(DecodeError(ex.cause))
  {
    if !Complete(c) then Attempt(None, Failure(MissingConfig))
    else
      var body := UpdateDnsRequest("A", c.recordName, ip, 1, false);
      var put := PutRequest("PUT", RecordUrl(c.zoneId, c.recordId), "Bearer " + c.apiToken, "application/json", body);
      RecordUrlRoundTrip(c.zoneId, c.recordId);
      match ex
      case MarshalFailed(cause) => Attempt(None, Failure(MarshalError(cause)))
      case BuildFailed(cause) => Attempt(None, Failure(BuildError(cause)))
      case SendFailed(cause) => Attempt(Some(put), Failure(SendError(cause)))
      case DecodeFailed(cause) => Attempt(Some(put), Failure(DecodeError(cause)))
      case Decoded(resp) => Attempt(Some(put), Verdict(resp))
  }
}
