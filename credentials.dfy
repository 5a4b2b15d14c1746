/**
 * Access-token renewal of the refresh-capable `TwitchBot` (the first of the two
 * declarations in twitch_bot.js): the OAuth 2.0 refresh-token grant of section 6 of
 * RFC 6749, with the client credentials sent in the request body as section 2.3.1 of
 * RFC 6749 allows, and the rule by which the stored chat credential is replaced.
 */
module Credentials {
  import opened Wrappers
  import opened Speech

  /** The scheme prefix the chat transport expects in front of a bearer token. */
  const Scheme: string := "oauth:"

  /** The token endpoint the refresh request is posted to. */
  const TokenEndpoint: string := "https://id.twitch.tv/oauth2/token"

  /** One form field of an `application/x-www-form-urlencoded` body, in append order. */
  datatype FormField = FormField(name: string, value: string)

  /**
   * What the POST to the token endpoint yielded, seen from `refreshAccessToken`:
   * either the request or the JSON decoding threw, or a JSON body arrived whose
   * `access_token` member is absent (None) or a string.
   */
  datatype RefreshResponse =
    | RequestFailed
    | Received(accessToken: Option<string>)

  /** The value of the first field called `name`, as `URLSearchParams.get` returns it. */
  function FieldValue(fields: seq<FormField>, name: string): (v: Option<string>)
    ensures v.Some? <==> exists i :: 0 <= i < |fields| && fields[i].name == name
    ensures v.Some? ==> exists k :: 0 <= k < |fields| && fields[k] == FormField(name, v.value) &&
                                    forall j :: 0 <= j < k ==> fields[j].name != name
  {
    if fields == [] then None
    else if fields[0].name == name then Some(fields[0].value)
    else FieldValue(fields[1..], name)
  }

  /** The names of the fields, in order. */
  function FieldNames(fields: seq<FormField>): (names: seq<string>)
    ensures |names| == |fields|
    ensures forall i :: 0 <= i < |fields| ==> names[i] == fields[i].name
  {
    if fields == [] then [] else [fields[0].name] + FieldNames(fields[1..])
  }

  /**
   * The body of the refresh request: the four parameters of the refresh-token grant,
   * appended in a fixed order. Each parameter occurs once and carries the bot's own
   * stored value.
   */
  function RefreshRequestBody(refreshToken: string, clientId: string, clientSecret: string): (body: seq<FormField>)
    ensures FieldNames(body) == ["grant_type", "refresh_token", "client_id", "client_secret"]
    ensures FieldValue(body, "grant_type") == Some("refresh_token")
    ensures FieldValue(body, "refresh_token") == Some(refreshToken)
    ensures FieldValue(body, "client_id") == Some(clientId)
    ensures FieldValue(body, "client_secret") == Some(clientSecret)
  {
    var body := [ FormField("grant_type", "refresh_token"),
                  FormField("refresh_token", refreshToken),
                  FormField("client_id", clientId),
                  FormField("client_secret", clientSecret) ];
    assert body[1..][1..] == body[2..] && body[2..][1..] == body[3..];
    assert FieldValue(body[3..], "client_secret") == Some(clientSecret);
    assert FieldValue(body[2..], "client_secret") == Some(clientSecret);
    assert FieldValue(body[2..], "client_id") == Some(clientId);
    body
  }

  /**
   * The new access token a response delivers, if any: only a present, non-empty
   * (that is, truthy) `access_token` string counts.
   */
  function IssuedToken(response: RefreshResponse): (t: Option<string>)
    ensures t.Some? ==> t.value != "" && response.Received? && response.accessToken == t
    ensures t.Some? <==> response.Received? && response.accessToken.Some? && response.accessToken.value != ""
  {
    match response
    case RequestFailed => None
    case Received(token) =>
      if token.Some? && token.value != "" then token else None
  }

  /** A stored credential in the form the chat transport authenticates with. */
  predicate HasScheme(credential: string)
  {
    |Scheme| <= |credential| && credential[..|Scheme|] == Scheme
  }

  /** The bare bearer token inside a scheme-prefixed credential. */
  function StripScheme(credential: string): (token: string)
    requires HasScheme(credential)
    ensures Scheme + token == credential
  {
    credential[|Scheme|..]
  }

  /**
   * The stored credential after one refresh: an issued token replaces it in
   * scheme-prefixed form; otherwise the old, possibly stale, credential stays.
   */
  function Refreshed(current: string, response: RefreshResponse): (next: string)
    ensures IssuedToken(response).None? ==> next == current
    ensures IssuedToken(response).Some? ==>
              HasScheme(next) && StripScheme(next) == IssuedToken(response).value
    ensures response.Received? && response.accessToken.Some? && response.accessToken.value != "" ==>
              next == Scheme + response.accessToken.value
  {
    match IssuedToken(response)
    case Some(token) => Scheme + token
    case None => current
  }

  /** A stored credential that is scheme-prefixed stays so across any refresh. */
  lemma RefreshKeepsScheme(current: string, response: RefreshResponse)
    requires HasScheme(current)
    ensures HasScheme(Refreshed(current, response))
  {
  }

  /** The stored credential after the refresh timer has fired once per response, in order. */
  function AfterRefreshes(current: string, responses: seq<RefreshResponse>): string
    decreases |responses|
  {
    if responses == [] then current
    else AfterRefreshes(Refreshed(current, responses[0]), responses[1..])
  }

  /** The token issued by the latest response that issued one, searching from the end. */
  function LatestIssued(responses: seq<RefreshResponse>): Option<string>
  {
    if responses == [] then None
    else match IssuedToken(responses[|responses| - 1])
      case Some(token) => Some(token)
      case None => LatestIssued(responses[..|responses| - 1])
  }

  lemma {:induction false} AfterRefreshesSnoc(current: string, responses: seq<RefreshResponse>, last: RefreshResponse)
    ensures AfterRefreshes(current, responses + [last]) == Refreshed(AfterRefreshes(current, responses), last)
    decreases |responses|
  {
    if responses == [] {
      assert responses + [last] == [last];
      assert [last][1..] == [];
    } else {
      assert (responses + [last])[0] == responses[0];
      assert (responses + [last])[1..] == responses[1..] + [last];
      AfterRefreshesSnoc(Refreshed(current, responses[0]), responses[1..], last);
    }
  }

  /**
   * Whatever mix of failures, empty answers and new tokens the timer meets, the stored
   * credential is the scheme-prefixed form of the most recently issued token, or the
   * initial credential when no response issued one.
   */
  lemma {:induction false} AfterRefreshesKeepsLatest(current: string, responses: seq<RefreshResponse>)
    ensures AfterRefreshes(current, responses) ==
              match LatestIssued(responses)
              case Some(token) => Scheme + token
              case None => current
    decreases |responses|
  {
    if responses != [] {
      var n := |responses| - 1;
      assert responses == responses[..n] + [responses[n]];
      AfterRefreshesSnoc(current, responses[..n], responses[n]);
      AfterRefreshesKeepsLatest(current, responses[..n]);
    }
  }

  /** The bot as the first declaration of `TwitchBot` has it: channel list, flag and credentials. */
  class TwitchBot {
    var channels: seq<string>
    var clientId: string
    var clientSecret: string
    var refreshToken: string
    var oauthToken: string
    var enableTts: FlagValue

    /** `botUsername` and `openaiApiKey` are taken as arguments and never stored. */
    constructor (botUsername: string, oauthToken: string, channels: seq<string>, openaiApiKey: string,
                 enableTts: FlagValue, refreshToken: string, clientId: string, clientSecret: string)
      ensures this.channels == channels && this.oauthToken == oauthToken && this.enableTts == enableTts
      ensures this.refreshToken == refreshToken && this.clientId == clientId && this.clientSecret == clientSecret
    {
      this.channels := channels;
      this.clientId := clientId;
      this.clientSecret := clientSecret;
      this.refreshToken := refreshToken;
      this.oauthToken := oauthToken;
      this.enableTts := enableTts;
    }

    /** The form body this bot posts to the token endpoint. */
    function RequestBody(): (body: seq<FormField>)
      reads this
      ensures FieldValue(body, "refresh_token") == Some(refreshToken)
      ensures FieldValue(body, "client_id") == Some(clientId)
      ensures FieldValue(body, "client_secret") == Some(clientSecret)
    {
      RefreshRequestBody(refreshToken, clientId, clientSecret)
    }

    /**
     * One renewal, given what the request to the token endpoint yielded. It never
     * fails: only `oauthToken` may change, and it changes only when a token was issued.
     */
    method RefreshAccessToken(response: RefreshResponse)
      modifies this`oauthToken
      ensures oauthToken == Refreshed(old(oauthToken), response)
      ensures response.Received? && response.accessToken.Some? && response.accessToken.value != "" ==>
                oauthToken == Scheme + response.accessToken.value
      ensures IssuedToken(response).None? ==> oauthToken == old(oauthToken)
    {
      match response {
        case RequestFailed =>
        case Received(token) =>
          if token.Some? && token.value != "" {
            oauthToken := Scheme + token.value;
          }
      }
    }

    /** The immediate renewal `startTokenRefresh` performs before it arms the timer. */
    method StartTokenRefresh(first: RefreshResponse)
      modifies this`oauthToken
      ensures oauthToken == Refreshed(old(oauthToken), first)
    {
      RefreshAccessToken(first);
    }
  }
}
