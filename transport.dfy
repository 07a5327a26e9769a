/** `SendgridTransport`: the request `send` posts to SendGrid and the count
    it returns. The HTTP client is kept as the list of requests posted
    through it. */
module Transport {

  import opened Wrappers
  import opened Json
  import opened Swift
  import opened HeaderFilter
  import opened Extractor

  /** The endpoint, relative to the client's base URI. */
  const MailSendPath: string := "mail/send"

  /** What `client->post` is called with: the path, the JSON body and the
      request headers. */
  datatype Request = Request(path: string, json: map<string, Value>, headers: map<string, string>)

  /** `array_merge` raises a `TypeError` when its second argument is not an
      array. */
  datatype SendError = OptionsNotArray

  /** The HTTP client, as the requests posted through it, oldest first. */
  class Client {
    var posted: seq<Request>

    constructor ()
      ensures posted == []
    {
      posted := [];
    }

    method Post(request: Request)
      modifies this
      ensures posted == old(posted) + [request]
    {
      posted := posted + [request];
    }
  }

  /** `$mailerOptions['options'] ?? []`: a missing or `null` entry is the
      empty array. */
  function Options(mailerOptions: map<string, Value>): (v: Value)
    ensures "options" !in mailerOptions || mailerOptions["options"].Null? ==> v == List([])
    ensures "options" in mailerOptions && !mailerOptions["options"].Null? ==> v == mailerOptions["options"]
  {
    if "options" in mailerOptions && !mailerOptions["options"].Null? then mailerOptions["options"] else List([])
  }

  lemma DecimalInjective()
    ensures forall i: nat, j: nat | DecimalString(i) == DecimalString(j) :: i == j
  {
    forall i: nat, j: nat | DecimalString(i) == DecimalString(j) ensures i == j {
      DecimalRoundTrip(i);
      DecimalRoundTrip(j);
    }
  }

  /** A PHP list as array keys: the position `i` becomes the key `"i"`. */
  function IndexKeys(items: seq<Value>): (m: map<string, Value>)
    ensures forall i: nat | i < |items| :: DecimalString(i) in m && m[DecimalString(i)] == items[i]
    ensures forall k | k in m :: exists i: nat | i < |items| :: k == DecimalString(i)
    decreases |items|
  {
    if |items| == 0 then map[]
    else
      var n := |items| - 1;
      DecimalInjective();
      IndexKeys(items[..n])[DecimalString(n) := items[n]]
  }

  /** `array_merge($payload, $options)`: the string keys of the options
      replace those of the payload, and list entries are added under the
      keys "0", "1", ... A payload key that is itself such a decimal string
      is overwritten here, where PHP would renumber and keep both; the
      extractor's payload has no such key. */
  function ArrayMerge(payload: map<string, Value>, options: Value): (r: Result<map<string, Value>, SendError>)
    ensures r.Ok? <==> options.Object? || options.List?
    ensures options.Object? ==>
      && r.value.Keys == payload.Keys + options.fields.Keys
      && (forall k | k in options.fields :: r.value[k] == options.fields[k])
      && (forall k | k in payload && k !in options.fields :: r.value[k] == payload[k])
    ensures options.List? ==>
      && (forall i: nat | i < |options.items| :: DecimalString(i) in r.value && r.value[DecimalString(i)] == options.items[i])
      && (forall k | k in payload && k !in IndexKeys(options.items) :: k in r.value && r.value[k] == payload[k])
      && (forall k | k in r.value :: k in payload || exists i: nat | i < |options.items| :: k == DecimalString(i))
  {
    match options
    case Object(fields) => Ok(payload + fields)
    case List(items) => Ok(payload + IndexKeys(items))
    case _ => Err(OptionsNotArray)
  }

  /** `sprintf('Bearer %s', $config['api_key'])`; a missing key prints as
      the empty string. */
  function Authorization(config: map<string, string>): (r: string)
    ensures |r| >= 7 && r[..7] == "Bearer "
    ensures "api_key" in config ==> r[7..] == config["api_key"]
    ensures "api_key" !in config ==> r == "Bearer "
  {
    "Bearer " + (if "api_key" in config then config["api_key"] else "")
  }

  /** The request `send` posts for a payload. */
  function BuildRequest(payload: map<string, Value>, config: map<string, string>, mailerOptions: map<string, Value>)
    : (r: Result<Request, SendError>)
    ensures r.Ok? <==> ArrayMerge(payload, Options(mailerOptions)).Ok?
    ensures r.Ok? ==>
      && r.value.path == MailSendPath
      && r.value.json == ArrayMerge(payload, Options(mailerOptions)).value
      && r.value.headers == map["Authorization" := Authorization(config)]
  {
    match ArrayMerge(payload, Options(mailerOptions))
    case Ok(body) => Ok(Request(MailSendPath, body, map["Authorization" := Authorization(config)]))
    case Err(e) => Err(e)
  }

  /** The request always goes to `mail/send` with the bearer header. */
  lemma RequestPathAndAuthorization(payload: map<string, Value>, config: map<string, string>, mailerOptions: map<string, Value>)
    ensures BuildRequest(payload, config, mailerOptions).Ok? ==>
      var r := BuildRequest(payload, config, mailerOptions).value;
      && r.path == MailSendPath
      && r.headers.Keys == {"Authorization"}
      && r.headers["Authorization"] == "Bearer " + (if "api_key" in config then config["api_key"] else "")
  {
    var a := Authorization(config);
    assert a == a[..7] + a[7..];
  }

  /** With no `options` entry, the JSON body is the payload itself. */
  lemma NoOptionsBodyIsPayload(payload: map<string, Value>, config: map<string, string>, mailerOptions: map<string, Value>)
    requires "options" !in mailerOptions
    ensures BuildRequest(payload, config, mailerOptions).Ok?
    ensures BuildRequest(payload, config, mailerOptions).value.json == payload
  {
    assert IndexKeys([]) == map[];
  }

  /** Options given as an associative array are merged shallowly: each of
      their top-level keys replaces the payload's, every other payload key
      is kept as it was, and nothing else is added. */
  lemma OptionsKeysWin(payload: map<string, Value>, config: map<string, string>, mailerOptions: map<string, Value>)
    requires Options(mailerOptions).Object?
    ensures BuildRequest(payload, config, mailerOptions).Ok?
    ensures var body := BuildRequest(payload, config, mailerOptions).value.json;
      var fields := Options(mailerOptions).fields;
      && body.Keys == payload.Keys + fields.Keys
      && (forall k | k in fields :: body[k] == fields[k])
      && (forall k | k in payload && k !in fields :: body[k] == payload[k])
  {
  }

  /** Options that are not an array make `send` fail before anything is
      posted. */
  lemma ScalarOptionsFail(payload: map<string, Value>, config: map<string, string>, mailerOptions: map<string, Value>)
    requires !Options(mailerOptions).Object? && !Options(mailerOptions).List?
    ensures BuildRequest(payload, config, mailerOptions) == Err(OptionsNotArray)
  {
  }

  /** The set of email addresses in an address list. */
  function Emails(addresses: seq<Address>): (r: set<string>)
    ensures forall i | 0 <= i < |addresses| :: addresses[i].email in r
    ensures forall e | e in r :: exists i | 0 <= i < |addresses| :: addresses[i].email == e
  {
    set i | 0 <= i < |addresses| :: addresses[i].email
  }

  function OrEmpty(addresses: Option<seq<Address>>): seq<Address> {
    if addresses.Some? then addresses.value else []
  }

  /** Laravel's `numberOfRecipients`: the size of the merged To, Cc and Bcc
      arrays, which are keyed by email, so an address is counted once. */
  function RecipientCount(to: seq<Address>, cc: Option<seq<Address>>, bcc: Option<seq<Address>>): nat {
    |Emails(to + OrEmpty(cc) + OrEmpty(bcc))|
  }

  function NumberOfRecipients(m: Message): nat {
    RecipientCount(m.to, m.cc, m.bcc)
  }

  /** Distinct addresses are each counted once. */
  lemma {:induction false} DistinctEmailsCount(addresses: seq<Address>)
    requires forall i, j | 0 <= i < j < |addresses| :: addresses[i].email != addresses[j].email
    ensures |Emails(addresses)| == |addresses|
    decreases |addresses|
  {
    if |addresses| > 0 {
      var init := addresses[..|addresses| - 1];
      var last := addresses[|addresses| - 1];
      DistinctEmailsCount(init);
      assert Emails(addresses) == Emails(init) + {last.email};
      assert last.email !in Emails(init);
    }
  }

  /** The counts the transport is expected to return: one To and one Bcc
      address give 2, a single To address gives 1. */
  lemma ExpectedRecipientCounts()
    ensures RecipientCount([Address("me@example.com", None)], None, Some([Address("you@example.com", None)])) == 2
    ensures RecipientCount([Address("to@example.com", None)], None, None) == 1
  {
    DistinctEmailsCount([Address("me@example.com", None), Address("you@example.com", None)]);
    DistinctEmailsCount([Address("to@example.com", None)]);
    assert [Address("me@example.com", None)] + OrEmpty(None) + OrEmpty(Some([Address("you@example.com", None)]))
        == [Address("me@example.com", None), Address("you@example.com", None)];
    assert [Address("to@example.com", None)] + OrEmpty(None) + OrEmpty(None) == [Address("to@example.com", None)];
  }

  class SendgridTransport {
    const client: Client
    const config: map<string, string>
    const mailerOptions: map<string, Value>

    constructor (client: Client, config: map<string, string>, mailerOptions: map<string, Value> := map[])
      ensures this.client == client && this.config == config && this.mailerOptions == mailerOptions
    {
      this.client := client;
      this.config := config;
      this.mailerOptions := mailerOptions;
    }

    /** `send`: extract the payload of `message` (which adds its
        `X-Message-ID` header), post it merged with the configured options,
        and return the number of recipients. */
    method Send(message: Message) returns (result: Result<nat, SendError>)
      modifies message, client
      ensures message.headers == old(message.headers) + [Header(MessageIdHeader, Text(message.id))]
      ensures match BuildRequest(Payload(message, old(message.headers)), config, mailerOptions)
        case Ok(request) => client.posted == old(client.posted) + [request] && result == Ok(NumberOfRecipients(message))
        case Err(e) => client.posted == old(client.posted) && result == Err(e)
    {
      var extractor := SendGridPayloadExtractor.Extract(message);
      var payload := extractor.ToArray();
      match BuildRequest(payload, config, mailerOptions)
      case Err(e) =>
        result := Err(e);
      case Ok(request) =>
        client.Post(request);
        result := Ok(NumberOfRecipients(message));
    }
  }
}
