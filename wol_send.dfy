/**
 * The wake route: checks the MAC, then the relay credentials from the
 * environment, then posts the MAC to the relay feed and maps the relay's
 * answer to a response. The relay call itself is not modelled: its
 * outcome is a parameter, and the route's result records the call it
 * would make.
 */
module WolSend {
  import opened Js

  /** `ADAFRUIT_IO_USERNAME`, `ADAFRUIT_IO_KEY` and `ADAFRUIT_FEED_KEY`, each possibly unset. */
  datatype Env = Env(username: Option<string>, aioKey: Option<string>, feedKey: Option<string>)

  /** The relay request: its URL, the `X-AIO-Key` header and the body's `value`. */
  datatype RelayCall = RelayCall(url: string, aioKey: string, value: string)

  /** How the relay call ended: a response with `res.ok` and its parsed body, kept opaque
      here (returned as `data` on success, interpolated into the message on failure),
      or an exception (the request or the body's parsing failed). */
  datatype RelayOutcome = RelayOk(body: string) | RelayNotOk(body: string) | RelayThrew

  /** The route's JSON response; `data` is the relay's body on success. */
  datatype SendResponse = SendResponse(status: nat, success: bool, message: string, data: Option<string>)

  /** What the route did: the relay call it made, if any, and its response. */
  datatype SendResult = SendResult(relay: Option<RelayCall>, response: SendResponse)

  const MacRequired := "MACアドレスは必須です"
  const RelayConfigError := "MQTTエラーが発生しました"
  const Sent := "起動シグナルを送信しました!"
  const SendFailed := "起動に失敗しました: "
  const ServerError := "サーバーエラーが発生しました"

  /** What a template literal prints for an environment variable. */
  function EnvText(v: Option<string>): string
  {
    if v.Some? then v.value else "undefined"
  }

  function RelayUrl(env: Env): string
  {
    "https://io.adafruit.com/api/v2/" + EnvText(env.username) + "/feeds/" + EnvText(env.feedKey) + "/data"
  }

  /** POST /send. `c.json` without a status answers 200, so a refused relay call is a 200
      with `success: false`. */
  function Send(macAddress: Option<string>, env: Env, outcome: RelayOutcome): (r: SendResult)
    ensures r.relay.Some? <==> Truthy(macAddress) && Truthy(env.username) && Truthy(env.aioKey)
    ensures r.response.success <==> r.relay.Some? && outcome.RelayOk?
    ensures r.response.data.Some? ==> r.response.success
  {
    if !Truthy(macAddress) then SendResult(None, SendResponse(400, false, MacRequired, None))
    else if !Truthy(env.username) || !Truthy(env.aioKey) then SendResult(None, SendResponse(500, false, RelayConfigError, None))
    else
      var call := RelayCall(RelayUrl(env), env.aioKey.value, macAddress.value);
      match outcome
      case RelayOk(body) => SendResult(Some(call), SendResponse(200, true, Sent, Some(body)))
      case RelayNotOk(body) => SendResult(Some(call), SendResponse(200, false, SendFailed + body, None))
      case RelayThrew => SendResult(Some(call), SendResponse(500, false, ServerError, None))
  }

  /** The MAC is checked before the credentials: without one the answer is 400 whatever the
      environment holds, and no relay call is made. */
  lemma MacCheckedFirst(env: Env, outcome: RelayOutcome)
    ensures Send(None, env, outcome) == SendResult(None, SendResponse(400, false, MacRequired, None))
    ensures Send(Some(""), env, outcome) == SendResult(None, SendResponse(400, false, MacRequired, None))
  {
  }

  /** With a MAC but no username or key, the answer is 500 and no relay call is made. */
  lemma MissingCredentials(mac: string, env: Env, outcome: RelayOutcome)
    requires mac != "" && (!Truthy(env.username) || !Truthy(env.aioKey))
    ensures Send(Some(mac), env, outcome) == SendResult(None, SendResponse(500, false, RelayConfigError, None))
  {
  }

  /** The feed key is not checked: when it is unset the call still goes out, to a URL that
      names the feed "undefined". The MAC goes out unchanged and the key in the header. */
  lemma RelayCallMade(mac: string, username: string, key: string, feedKey: Option<string>, outcome: RelayOutcome)
    requires mac != "" && username != "" && key != ""
    ensures var r := Send(Some(mac), Env(Some(username), Some(key), feedKey), outcome);
            && r.relay.Some? && r.relay.value.value == mac && r.relay.value.aioKey == key
            && (feedKey.None? ==> r.relay.value.url == "https://io.adafruit.com/api/v2/" + username + "/feeds/undefined/data")
  {
  }

  /** The relay's outcome decides the response once the call is made: ok is 200 with the
      relay's data, not-ok is 200 with `success: false`, an exception is 500. */
  lemma OutcomeToResponse(mac: string, env: Env, outcome: RelayOutcome)
    requires mac != "" && Truthy(env.username) && Truthy(env.aioKey)
    ensures var resp := Send(Some(mac), env, outcome).response;
            && (outcome.RelayOk? ==> resp == SendResponse(200, true, Sent, Some(outcome.body)))
            && (outcome.RelayNotOk? ==> resp.status == 200 && !resp.success && resp.message == SendFailed + outcome.body)
            && (outcome.RelayThrew? ==> resp.status == 500 && !resp.success)
  {
  }
}
