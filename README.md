# Multiscrape sensor: a Dafny model of its fetch, login and extraction cycle

The multiscrape sensor for Home Assistant polls one HTTP(S) resource, parses the
response as HTML/XML and stores one value per configured CSS selector as an
attribute of a single sensor. Before fetching, it can log in through an HTML
form. This project models that pipeline from `sensor.py`:

- `rest.dfy`, module `Rest`: `RestData`, a class with a mutable request
  (method, URL, body), a persistent session and the retained `data`/`headers`
  of the latest response. The network is the `Transport` oracle. It gives the
  outcome of the latest request as a function of every request the session has
  sent, so a response may depend on cookies left by earlier requests.
- `login.dfy`, module `Login`: the pure parts of pre-login. The form is looked
  up by `name`, then `id`, then `class`, then `action`, and the form data is
  built from the form's inputs plus the configured credentials.
- `dict.dfy`, module `Dict`: a Python `dict` as its entries in insertion
  order. The submitted form data is one, so the order in which `requests`
  encodes it is part of the request the transport sees.
- `extraction.dfy`, module `Extraction`: the value rule for one matched
  element, and `Fill`, the selector loop written as a function, with lemmas
  about what it fills, skips and aborts on.
- `sensor.dfy`, module `Sensor`: `MultiscrapeSensor`, a class whose `Update`
  method runs one poll cycle. It calls `Prelogin` (the login handshake) or a
  plain fetch, then `ExtractFields` (the selector loop), and updates `state`
  and `attributes`.
- `platform.dfy`, module `Platform`: `setup_platform`. It chooses the
  authentication variant, builds the session, performs the first fetch and
  raises "not ready" when that fetch yields nothing.
- `document.dfy` and `wrappers.dfy`: the document oracle and `Option`.

The HTML parser is an oracle `parse(body, parser) -> Doc`. A `Doc` lists the
document's forms in order, and for each selector the ordered elements it
matches. Each element has a tag name, an attribute map, `text` and `string`.
URL and value templates are opaque functions in `Env`.

Three behaviours are modelled as the code has them, not as its comments or a
natural reading would have them:

- The login page is fetched with the method current at the start of the
  cycle, not forced to GET. It is also fetched with the current request body.
  The body is replaced whenever a login form is found, even when reading the
  form's `method` then raises KeyError and nothing is submitted. So the login
  page request carries the configured payload until a login form is first
  found, and afterwards the form data built for the form found most recently
  (`Sensor.MultiscrapeSensor.Prelogin`).
- An input without a `name` puts a `None` key into the submitted form data. It
  is not dropped (`Login.UnnamedInputKept`).
- In pre-login mode there is no separate resource fetch. Extraction runs on the
  last pre-login response, the URL stays on the login page, and the URL
  template is not re-rendered (`Sensor.MultiscrapeSensor.Update`).

Two `KeyError`s escape `update` in the code, and both are modelled as the
`Raised` result of `Update`. The first is `form['method']` on a login form
without a `method` attribute. It is raised after the form data has been set
and before the method is changed. The second is `tag[attr]` on a matched
element that lacks the configured attribute. It leaves the attributes filled
so far in place and `state` untouched.

## Model

| member | source | states |
|---|---|---|
| `Rest.RestData.constructor` | sensor.py:357-370 | the request fields are the given ones; no request has been sent yet and `data`/`headers` are both `None` |
| `Rest.RestData.SetUrl` | sensor.py:376-378 | `set_url` replaces the URL and changes nothing else, so the body/headers invariant is kept |
| `Rest.RestData.SetRequestData` | sensor.py:380-382 | `set_request_data` replaces the body and changes nothing else, so the body/headers invariant is kept |
| `Rest.RestData.Update` | sensor.py:384-402 | exactly one request is sent: `Pending`, built from the current method, URL and body; `data` and `headers` both come from its response, or both become `None` on transport failure |
| `Rest.SetUrlTwice` | sensor.py:376-378 | two `set_url` calls before a fetch: the request sent is the previously `Pending` one with the later URL (last write wins) |
| `Login.FindForm` | sensor.py:245 | `find` yields the first form in document order whose attribute equals the identifier, and `None` exactly when no form matches |
| `Login.LocateFormPriority` | sensor.py:244-254 | `LocateForm` (the lookup chain) prefers `name` over `id` over `class` over `action`: the result is the first form matching on the earliest attribute any form matches on, and there is none exactly when no form matches on any of the four |
| `Login.NameWins` | sensor.py:245-251 | a form matching on `name` is always chosen over forms matching only on `id`, `class` or `action` |
| `Dict.Lookup` | sensor.py:261-265 | reading the entry for a key of the form-data dict (how the model reads what `d[k] = v` left) finds a value exactly when some entry has the key |
| `Dict.Put` | sensor.py:261-265 | `d[k] = v` keeps the length when the key is present and otherwise appends `(k, v)` at the end |
| `Dict.PutKeepsOrder` | sensor.py:261-265 | `d[k] = v` keeps every existing entry's key at its position (insertion order) |
| `Dict.PutOverwrite` | sensor.py:264-265 | `d[k] = v` leaves every entry with another key unchanged |
| `Dict.PutAgain` | sensor.py:264-265 | writing a key right after appending it replaces that last entry |
| `Dict.PutLookup` | sensor.py:261-265 | after `d[k] = v`, `k` holds `v` and every other key holds what it held |
| `Dict.PutDistinct` | sensor.py:261-265 | writing a key never creates a second entry for it |
| `Login.FieldMapKeys` | sensor.py:260-261 | the keys of `FieldMap` (the dict comprehension) are exactly the inputs' names as `Get` returns them, with `None` for unnamed inputs |
| `Login.FieldMapValues` | sensor.py:261 | each key of `FieldMap` holds the `value` of the last input carrying it |
| `Login.FieldMapDistinct` | sensor.py:261 | `FieldMap` has one entry per key |
| `Login.FieldMapOrder` | sensor.py:261 | the entries of `FieldMap` are ordered by the first input carrying each key |
| `Login.LoginFormDataContents` | sensor.py:260-265 | `LoginFormData` (the submitted data) always holds the configured password under the password field and, when the field names differ, the username under the username field; every other key is as the inputs give it |
| `Login.LoginFormDataOrder` | sensor.py:260-265 | `LoginFormData` keeps the inputs' entries first and in order; a credential field no input carries is appended after them, the username field before the password field |
| `Login.UnnamedInputKept` | sensor.py:261 | an input without a `name` (for which `Get` yields `None`) puts a `None` key into the submitted data |
| `Login.LoginExample` | sensor.py:245-265 | `<form id="login">` with inputs `user` and `pass` is found by id, and its data is exactly `{user: username, pass: password}`, in that order |
| `Extraction.ExtractionRule` | sensor.py:316-330 | `Extract` (the matches `Select` gives, then `ElementValue`) yields IndexError for a selector the document has no matches for, and IndexError exactly when the index is not below the match count; otherwise the attribute when configured (KeyError when missing), else `string` for `style`/`script`/`template` and `text` for other tags |
| `Extraction.FillStep` | sensor.py:308-341 | in `Fill` (the selector loop as a function), one more selector without KeyError stores its `Stored` value (rendered or raw) under its name if it matched, and otherwise changes nothing |
| `Extraction.FillCompletes` | sensor.py:308-330 | the selector loop runs to its end exactly when no selector raises KeyError |
| `Extraction.FillKeys` | sensor.py:305-341 | without KeyError, the filled names are exactly the names of selectors whose index is below their match count |
| `Extraction.FillValues` | sensor.py:332-341 | each filled name holds `Stored` of its selector: the template rendering of the last in-range selector with that name, or its raw value when it has no template |
| `Extraction.FillAborts` | sensor.py:316-318 | the first KeyError ends the loop with its key; the names filled before it stay as they were |
| `Extraction.FillSkips` | sensor.py:327-330 | a selector whose index is out of range leaves the result exactly as if it were not configured |
| `Extraction.PriceExample` | sensor.py:316-341 | selector `.price` on `<span class="price">19.99</span>` stores `"19.99"`, and a `.missing` selector before it is skipped |
| `Sensor.MultiscrapeSensor.constructor` | sensor.py:171-196 | a new sensor keeps the given `RestData` and configuration, has no state and no attributes, and starts valid when its `RestData` is |
| `Sensor.MultiscrapeSensor.Available` | sensor.py:208-211 | the sensor is available exactly when the latest fetch retained a body, and then its headers too |
| `Sensor.MultiscrapeSensor.Prelogin` | sensor.py:226-283 | the login page is fetched with the method and body current at the start; the method is restored on every exit; the retained body and headers are those of the handshake's last response; if no form matches, nothing is submitted and the body is untouched; otherwise the form data is set and submitted with the form's own method (KeyError when it has none) |
| `Sensor.MultiscrapeSensor.ExtractFields` | sensor.py:305-341 | the selector loop fills `attributes` exactly as `Fill` describes and returns the key of a KeyError that ended it early |
| `Sensor.MultiscrapeSensor.Update` | sensor.py:223-346 | the method is unchanged on every exit; the retained body, on which extraction runs, and the headers are those of the cycle's last response, and availability is that request's outcome; without pre-login exactly one request is sent, to the re-rendered URL when templated, with the body unchanged; with pre-login the requests are exactly the handshake's (the login page with the current method and body, then, for a matched form with a `method`, its `LoginFormData` submitted with that method), the URL stays on the login page, the body is that form data once a form matched, and a form-method KeyError is raised exactly for a matched form without `method`; a failed fetch leaves `state` and `attributes` unchanged; a successful one sets `state` to `"None"` and rebuilds `attributes` from the selectors (empty for an empty body) |
| `Platform.ChooseAuth` | sensor.py:133-139 | no authentication unless both username and password are non-empty; then Digest exactly when Digest is configured, Basic otherwise, carrying those credentials |
| `Platform.SetupPlatform` | sensor.py:106-165 | `PlatformNotReady` exactly when the first fetch yields no data; that fetch sends `FirstRequest`: the configured method, `InitialUrl` (the rendered URL template when configured, else the resource), the chosen authentication and the payload; otherwise a fresh, available sensor with no state or attributes, whose session holds that first request and retains its response's body and headers |

## Left out

- HTTP transport (`requests.Session`, TLS, timeouts, Basic/Digest handshakes, cookies): abstracted as the `Transport` oracle over the session's request history.
- Closing the session in `__del__`: there is no resource release in the model.
- HTML/XML parsing and CSS-selector semantics (BeautifulSoup, lxml): abstracted as the `Doc` oracle. `result.prettify()` returns a value that is discarded, so it has no effect to model.
- `Login.FindForm` matches an attribute only by exact string equality. BeautifulSoup's matching of a single `class` token is not modelled, and neither is its returning multi-valued attributes such as `class` as lists.
- Template rendering (`render`, `render_with_possible_json_value`) and the `hass` assignments on templates: opaque functions in `Env`. A rendering error is whatever value that function returns.
- Exceptions other than the two `KeyError`s described above, such as errors raised by the parser or by a template: not modelled.
- Configuration validation with voluptuous and `cv`: the model takes the validated configuration. The authentication setting becomes `AuthScheme` instead of the two strings it is restricted to.
- The Home Assistant entity framework: `add_entities` and its update-before-add call, and the `name`, `unit_of_measurement`, `state`, `force_update` and `device_state_attributes` properties, which return fields unchanged. Logging is left out too.
