/** `setup_platform` (sensor.py:106-165): choose the authentication, build the
    session, fetch once, and refuse to set up when that fetch yields nothing. */
module Platform {
  import opened Wrappers
  import opened Document
  import opened Rest
  import opened Extraction
  import opened Sensor

  /** The `authentication` setting, already restricted to these two values. */
  datatype AuthScheme = BasicScheme | DigestScheme

  /** Python truthiness of an optional string: present and non-empty. */
  predicate Truthy(s: Option<string>) {
    s.Some? && s.value != ""
  }

  /** The authentication variant (sensor.py:133-139). */
  function ChooseAuth(username: Option<string>, password: Option<string>, scheme: Option<AuthScheme>): (a: Auth)
    ensures a.NoAuth? <==> !Truthy(username) || !Truthy(password)
    ensures a.DigestAuth? <==> Truthy(username) && Truthy(password) && scheme == Some(DigestScheme)
    ensures a.BasicAuth? <==> Truthy(username) && Truthy(password) && scheme != Some(DigestScheme)
    ensures !a.NoAuth? ==> a.user == username.value && a.pass == password.value
  {
    if Truthy(username) && Truthy(password) then
      if scheme == Some(DigestScheme) then DigestAuth(username.value, password.value)
      else BasicAuth(username.value, password.value)
    else NoAuth
  }

  /** The validated platform configuration the sensor is built from. */
  datatype PlatformConfig = PlatformConfig(
    name: string,
    resource: Option<string>,
    resourceTemplate: Option<string>,
    httpMethod: string,
    payload: Option<string>,
    verifySsl: bool,
    username: Option<string>,
    password: Option<string>,
    authentication: Option<AuthScheme>,
    headers: Option<map<string, string>>,
    unit: Option<string>,
    selectors: seq<SelectorSpec>,
    prelogin: Option<PreloginSpec>,
    timeout: nat,
    parser: string)

  /** What `setup_platform` ends with: `PlatformNotReady` raised, or a sensor
      handed to the host. */
  datatype SetupResult = PlatformNotReady | Added(sensor: MultiscrapeSensor)

  /** The URL the session starts with: the rendered template when there is
      one, the configured resource otherwise. */
  function InitialUrl(cfg: PlatformConfig, renderUrl: string -> string): (u: Option<string>)
    ensures cfg.resourceTemplate.None? ==> u == cfg.resource
    ensures cfg.resourceTemplate.Some? ==> u == Some(renderUrl(cfg.resourceTemplate.value))
  {
    if cfg.resourceTemplate.Some? then Some(renderUrl(cfg.resourceTemplate.value)) else cfg.resource
  }

  /** The request the first fetch sends. */
  function FirstRequest(cfg: PlatformConfig, renderUrl: string -> string): (r: Request)
    ensures r.httpMethod == cfg.httpMethod && r.url == InitialUrl(cfg, renderUrl)
    ensures r.auth == ChooseAuth(cfg.username, cfg.password, cfg.authentication)
    ensures r.body == if cfg.payload.Some? then Raw(cfg.payload.value) else NoPayload
  {
    Request(cfg.httpMethod, InitialUrl(cfg, renderUrl), cfg.headers,
            ChooseAuth(cfg.username, cfg.password, cfg.authentication),
            if cfg.payload.Some? then Raw(cfg.payload.value) else NoPayload,
            cfg.verifySsl, cfg.timeout)
  }

  /** `setup_platform`: not ready exactly when the first fetch yields no data;
      otherwise a sensor whose session holds that first response and has not
      yet run a cycle. */
  method SetupPlatform(cfg: PlatformConfig, env: Env) returns (r: SetupResult)
    ensures r.PlatformNotReady? <==> env.net([FirstRequest(cfg, env.renderUrl)]).None?
    ensures r.Added? ==>
              var s := r.sensor;
              && fresh(s) && fresh(s.rest) && s.Valid() && s.Available()
              && s.rest.RetainsLatest(env.net)
              && s.rest.session == [FirstRequest(cfg, env.renderUrl)]
              && s.rest.Pending() == FirstRequest(cfg, env.renderUrl)
              && s.rest.data == Some(env.net(s.rest.session).value.text)
              && s.selectors == cfg.selectors && s.prelogin == cfg.prelogin
              && s.resourceTemplate == cfg.resourceTemplate && s.parser == cfg.parser
              && s.state.None? && s.attributes.None?
  {
    var auth := ChooseAuth(cfg.username, cfg.password, cfg.authentication);
    var body := if cfg.payload.Some? then Raw(cfg.payload.value) else NoPayload;
    var rest := new RestData(cfg.httpMethod, InitialUrl(cfg, env.renderUrl), auth, cfg.headers, body,
                             cfg.verifySsl, cfg.timeout);
    rest.Update(env.net);
    assert rest.session == [FirstRequest(cfg, env.renderUrl)];
    if rest.data.None? {
      return PlatformNotReady;
    }
    var sensor := new MultiscrapeSensor(rest, cfg.name, cfg.unit, cfg.selectors,
                                        cfg.resourceTemplate, cfg.parser, cfg.prelogin);
    r := Added(sensor);
  }
}
