/**
 * The WhatsApp Cloud API client: the endpoint and headers fixed at
 * construction and the template-message request body. The HTTP POST itself
 * is a gateway parameter that answers a request with a response or an error.
 */
module WhatsApp {
  import opened Wrappers
  import opened Text

  datatype Config = Config(phoneNumberId: string, accessToken: string, version: string)

  /** The API version the shared client instance is built with. */
  const DefaultVersion: string := "v17.0"

  const GraphHost: string := "https://graph.facebook.com/"
  const MessagesPath: string := "/messages"

  /** The base URL fixed by the constructor. */
  function BaseUrl(c: Config): string {
    GraphHost + c.version + "/" + c.phoneNumberId
  }

  /** The URL every template message is posted to. */
  function Endpoint(c: Config): (r: string)
    ensures StartsWith(r, GraphHost) && EndsWith(r, MessagesPath)
  {
    var r := BaseUrl(c) + MessagesPath;
    assert r[..|GraphHost|] == GraphHost;
    assert r[|r| - |MessagesPath|..] == MessagesPath;
    r
  }

  /**
   * Reads the version and the phone-number id back out of an endpoint URL:
   * strip the host and the `/messages` suffix, then split at the first `/`.
   */
  function ParseEndpoint(url: string): (r: Option<(string, string)>)
    ensures r.Some? ==> '/' !in r.value.0
  {
    if !StartsWith(url, GraphHost) || !EndsWith(url, MessagesPath)
       || |url| < |GraphHost| + |MessagesPath| then None
    else SplitFirst(url[|GraphHost|..|url| - |MessagesPath|], '/')
  }

  /**
   * The endpoint determines the configuration it was built from, provided
   * the version contains no `/` (as `v17.0` does not).
   */
  lemma ParseEndpointRoundTrip(c: Config)
    requires '/' !in c.version
    ensures ParseEndpoint(Endpoint(c)) == Some((c.version, c.phoneNumberId))
  {
    var url := Endpoint(c);
    assert url == GraphHost + (c.version + "/" + c.phoneNumberId) + MessagesPath;
    assert url[|GraphHost|..|url| - |MessagesPath|] == c.version + ['/'] + c.phoneNumberId;
    SplitFirstConcat(c.version, '/', c.phoneNumberId);
  }

  /** Two configurations with slash-free versions share an endpoint only if they agree on version and id. */
  lemma EndpointInjective(c1: Config, c2: Config)
    requires '/' !in c1.version && '/' !in c2.version
    requires Endpoint(c1) == Endpoint(c2)
    ensures c1.version == c2.version && c1.phoneNumberId == c2.phoneNumberId
  {
    ParseEndpointRoundTrip(c1);
    ParseEndpointRoundTrip(c2);
  }

  /** An HTTP header: name and value. */
  datatype Header = Header(name: string, value: string)

  const BearerPrefix: string := "Bearer "

  /** The headers fixed by the constructor. */
  function Headers(c: Config): (r: seq<Header>)
    ensures |r| == 2 && r[1] == Header("Content-Type", "application/json")
  {
    [Header("Authorization", BearerPrefix + c.accessToken), Header("Content-Type", "application/json")]
  }

  /** The access token a header list carries: the Authorization value with the `Bearer ` prefix removed. */
  function BearerToken(hs: seq<Header>): (r: Option<string>)
    ensures r.Some? ==> exists i :: 0 <= i < |hs| && hs[i].value == BearerPrefix + r.value
  {
    if |hs| == 0 then None
    else if hs[0].name == "Authorization" && StartsWith(hs[0].value, BearerPrefix) then
      assert hs[0].value == BearerPrefix + hs[0].value[|BearerPrefix|..];
      Some(hs[0].value[|BearerPrefix|..])
    else
      var r := BearerToken(hs[1..]);
      assert r.Some? ==> hs[1..][0..] == hs[1..];
      r
  }

  /** The headers carry exactly the configured access token. */
  lemma BearerTokenRoundTrip(c: Config)
    ensures BearerToken(Headers(c)) == Some(c.accessToken)
  {
    var hs := Headers(c);
    assert hs[0].value[..|BearerPrefix|] == BearerPrefix;
    assert hs[0].value[|BearerPrefix|..] == c.accessToken;
  }

  /**
   * One `{type, text}` entry of the body component's parameters; a `None`
   * text is an undefined variable, whose `text` key the JSON encoding drops.
   */
  datatype Parameter = Parameter(kind: string, text: Option<string>)
  datatype Component = Component(kind: string, parameters: seq<Parameter>)
  datatype Template = Template(name: string, languageCode: string, components: seq<Component>)
  datatype Body = Body(messagingProduct: string, to: string, kind: string, template: Template)

  /** The fixed shape every template-message body has. */
  predicate WellFormed(b: Body) {
    && b.messagingProduct == "whatsapp"
    && b.kind == "template"
    && b.template.languageCode == "en"
    && |b.template.components| == 1
    && b.template.components[0].kind == "body"
    && forall i :: 0 <= i < |b.template.components[0].parameters| ==>
         b.template.components[0].parameters[i].kind == "text"
  }

  /** The texts of a body's parameters, in order. */
  function Variables(b: Body): (r: seq<Option<string>>)
    requires |b.template.components| > 0
    ensures |r| == |b.template.components[0].parameters|
  {
    var ps := b.template.components[0].parameters;
    seq(|ps|, i requires 0 <= i < |ps| => ps[i].text)
  }

  /** The request body of a template message to `to` with the given template and variables. */
  function BuildBody(to: string, templateName: string, variables: seq<Option<string>>): (r: Body)
    ensures WellFormed(r)
    ensures r.to == to && r.template.name == templateName
    ensures |r.template.components[0].parameters| == |variables|
  {
    var ps := seq(|variables|, i requires 0 <= i < |variables| => Parameter("text", variables[i]));
    Body("whatsapp", to, "template", Template(templateName, "en", [Component("body", ps)]))
  }

  /** The body carries exactly the given variables, one parameter each, in order. */
  lemma BuildBodyRoundTrip(to: string, templateName: string, variables: seq<Option<string>>)
    ensures Variables(BuildBody(to, templateName, variables)) == variables
  {
  }

  /** A well-formed body is the one `BuildBody` makes from its own fields. */
  lemma WellFormedIsBuilt(b: Body)
    requires WellFormed(b)
    ensures BuildBody(b.to, b.template.name, Variables(b)) == b
  {
    var ps := b.template.components[0].parameters;
    var built := BuildBody(b.to, b.template.name, Variables(b));
    assert built.template.components[0].parameters == ps;
    assert built.template.components == b.template.components;
  }

  /** What reaches the network: URL, headers and body. */
  datatype Request = Request(url: string, headers: seq<Header>, body: Body)

  /**
   * `sendTemplateMessage`: posts the request through `gateway` and hands
   * back its outcome; a gateway error is passed on to the caller unchanged.
   */
  function SendTemplateMessage(c: Config, to: string, templateName: string, variables: seq<Option<string>>,
                               gateway: Request -> Result<string, string>): (r: Result<string, string>)
    ensures var req := Request(Endpoint(c), Headers(c), BuildBody(to, templateName, variables));
            (r.Err? <==> gateway(req).Err?) && (r.Err? ==> r.error == gateway(req).error)
  {
    gateway(Request(Endpoint(c), Headers(c), BuildBody(to, templateName, variables)))
  }
}
