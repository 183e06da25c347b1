/** `MultiscrapeSensor` (sensor.py:168-346): one poll cycle runs an optional
    pre-login handshake or a plain fetch, then the selector extraction over
    the latest response. */
module Sensor {
  import opened Wrappers
  import opened Document
  import opened Login
  import opened Rest
  import opened Extraction

  /** The `prelogin` configuration block. */
  datatype PreloginSpec = PreloginSpec(page: string, form: string, creds: Credentials)

  /** The collaborators a cycle calls but that are not modelled: the network,
      the HTML parser (given the body and the parser name), the rendering of
      the resource URL template in this cycle, and value-template rendering. */
  datatype Env = Env(
    net: Transport,
    parse: (string, string) -> Doc,
    renderUrl: string -> string,
    renderValue: ValueRenderer)

  /** How the pre-login step ended. */
  datatype LoginOutcome =
    | PageUnavailable   // the login page fetch failed: the cycle ends
    | NoForm            // no form matched: assumed to be logged in already
    | Submitted         // the form data was submitted with the form's method
    | FormWithoutMethod // `form['method']` raised KeyError

  /** The exception an `update` call lets escape, if any. */
  datatype Raised = FormMethodMissing | AttributeMissing(key: string)

  /** The sentinel `_state` takes after every successful fetch. */
  const StatePresent: string := "None"

  class MultiscrapeSensor {
    const rest: RestData
    const name: string
    const unit: Option<string>
    const selectors: seq<SelectorSpec>
    const resourceTemplate: Option<string>
    const parser: string
    const prelogin: Option<PreloginSpec>
    var state: Option<string>
    var attributes: Option<map<string, Value>>

    ghost predicate Valid()
      reads this, rest
    {
      rest.Valid()
    }

    constructor (rest: RestData, name: string, unit: Option<string>, selectors: seq<SelectorSpec>,
                 resourceTemplate: Option<string>, parser: string, prelogin: Option<PreloginSpec>)
      requires rest.Valid()
      ensures Valid()
      ensures this.rest == rest && this.name == name && this.unit == unit
      ensures this.selectors == selectors && this.resourceTemplate == resourceTemplate
      ensures this.parser == parser && this.prelogin == prelogin
      ensures state.None? && attributes.None?
    {
      this.rest := rest;
      this.name := name;
      this.unit := unit;
      this.selectors := selectors;
      this.resourceTemplate := resourceTemplate;
      this.parser := parser;
      this.prelogin := prelogin;
      state := None;
      attributes := None;
    }

    /** `available`: the latest fetch produced a response, whose headers are
        then retained as well. */
    function Available(): (r: bool)
      requires Valid()
      reads this, rest
      ensures r <==> rest.data.Some? && rest.headers.Some?
      ensures !r <==> rest.data.None? && rest.headers.None?
    {
      rest.data.Some?
    }

    /** The pre-login step (sensor.py:226-283). */
    method Prelogin(p: PreloginSpec, env: Env) returns (outcome: LoginOutcome)
      requires Valid()
      modifies rest
      ensures Valid()
      // the method current at the start is current again on every exit
      ensures rest.httpMethod == old(rest.httpMethod)
      ensures rest.resource == Some(p.page)
      // the retained body and headers are those of the handshake's last response
      ensures rest.RetainsLatest(env.net)
      // the login page is fetched with the current method and current body
      ensures |rest.session| > |old(rest.session)|
      ensures rest.session[|old(rest.session)|] == old(rest.Pending()).(url := Some(p.page))
      ensures outcome == PageUnavailable <==> env.net(old(rest.session) + [old(rest.Pending()).(url := Some(p.page))]).None?
      ensures outcome in {PageUnavailable, NoForm} ==>
                rest.session == old(rest.session) + [old(rest.Pending()).(url := Some(p.page))] &&
                rest.requestData == old(rest.requestData)
      ensures outcome == NoForm ==>
                LocateForm(env.parse(env.net(old(rest.session) + [old(rest.Pending()).(url := Some(p.page))]).value.text, parser).forms, p.form).None?
      ensures outcome in {Submitted, FormWithoutMethod} ==>
                var page := env.net(old(rest.session) + [old(rest.Pending()).(url := Some(p.page))]);
                page.Some? &&
                var form := LocateForm(env.parse(page.value.text, parser).forms, p.form);
                && form.Some?
                && rest.requestData == FormData(LoginFormData(form.value.inputs, p.creds))
                && (outcome == FormWithoutMethod <==> "method" !in form.value.attrs)
                && (outcome == FormWithoutMethod ==>
                      rest.session == old(rest.session) + [old(rest.Pending()).(url := Some(p.page))])
                && (outcome == Submitted ==>
                      rest.session == old(rest.session) + [old(rest.Pending()).(url := Some(p.page)),
                        Request(form.value.attrs["method"], Some(p.page), rest.requestHeaders, rest.auth,
                                rest.requestData, rest.verifySsl, rest.timeout)])
    {
      var previousMethod := rest.httpMethod;
      rest.SetUrl(p.page);
      rest.Update(env.net);
      if rest.data.None? {
        return PageUnavailable;
      }
      var d := env.parse(rest.data.value, parser);
      var form := LocateForm(d.forms, p.form);
      if form.None? {
        outcome := NoForm;
      } else {
        var formData := LoginFormData(form.value.inputs, p.creds);
        rest.SetRequestData(FormData(formData));
        if "method" !in form.value.attrs {
          return FormWithoutMethod;
        }
        rest.httpMethod := form.value.attrs["method"];
        rest.Update(env.net);
        outcome := Submitted;
      }
      rest.httpMethod := previousMethod;
    }

    /** The selector loop (sensor.py:308-341), run on a fresh empty
        `attributes` map: it ends holding what `Fill` describes, and returns
        the missing attribute of a KeyError that ended it early. */
    method ExtractFields(d: Doc, render: ValueRenderer) returns (missing: Option<string>)
      requires attributes == Some(map[])
      modifies this`attributes
      ensures attributes == Some(Fill(d, selectors, render).fields)
      ensures missing == Fill(d, selectors, render).aborted
    {
      var i := 0;
      while i < |selectors|
        invariant 0 <= i <= |selectors|
        invariant Fill(d, selectors[..i], render).aborted.None?
        invariant attributes == Some(Fill(d, selectors[..i], render).fields)
      {
        assert selectors[..i + 1][..i] == selectors[..i];
        var s := selectors[i];
        var found := Select(d, s.select);
        if s.index >= |found| {
          i := i + 1;
          continue;
        }
        var value := ElementValue(found[s.index], s.attr);
        if value.MissingAttribute? {
          assert selectors[..i + 1] == selectors[..i] + [s];
          FillCompletes(d, selectors[..i], render);
          FillAborts(d, selectors, render, i);
          return Some(value.key);
        }
        attributes := Some(attributes.value[s.name := Stored(s, value.raw, render)]);
        i := i + 1;
      }
      assert selectors[..i] == selectors;
      missing := None;
    }

    /** `update`: one poll cycle (sensor.py:223-346). */
    method Update(env: Env) returns (raised: Option<Raised>)
      requires Valid()
      modifies this`state, this`attributes, rest
      ensures Valid()
      // the method is the one current at the start of the cycle on every exit
      ensures rest.httpMethod == old(rest.httpMethod)
      // availability is the outcome of the cycle's last request
      ensures |rest.session| > |old(rest.session)|
      // the retained body and headers, on which extraction ran, are those of
      // the response to the cycle's last request
      ensures rest.RetainsLatest(env.net)
      ensures Available() <==> env.net(rest.session).Some?
      // without pre-login: one request, to the freshly rendered URL when
      // templated; the body is left as it was
      ensures prelogin.None? ==>
                && rest.resource == (if resourceTemplate.Some? then Some(env.renderUrl(resourceTemplate.value))
                                     else old(rest.resource))
                && rest.requestData == old(rest.requestData)
                && rest.session == old(rest.session) + [old(rest.Pending()).(url := rest.resource)]
      // with pre-login: no separate fetch, the first request goes to the login
      // page with the current method and body, and the URL stays there
      ensures prelogin.Some? ==>
                && rest.resource == Some(prelogin.value.page)
                && rest.session[|old(rest.session)|] == old(rest.Pending()).(url := Some(prelogin.value.page))
      // with pre-login: the handshake's requests are the only ones, and a
      // form-method KeyError is raised exactly for a matched form without one
      ensures prelogin.Some? ==>
                var login := old(rest.Pending()).(url := Some(prelogin.value.page));
                var page := env.net(old(rest.session) + [login]);
                var form := if page.Some? then LocateForm(env.parse(page.value.text, parser).forms, prelogin.value.form)
                            else None;
                && (raised == Some(FormMethodMissing) <==> form.Some? && "method" !in form.value.attrs)
                && rest.requestData == (if form.Some? then FormData(LoginFormData(form.value.inputs, prelogin.value.creds))
                                        else old(rest.requestData))
                && rest.session == old(rest.session) + [login] +
                     (if form.Some? && "method" in form.value.attrs
                      then [login.(httpMethod := form.value.attrs["method"],
                                   body := FormData(LoginFormData(form.value.inputs, prelogin.value.creds)))]
                      else [])
      // a failed fetch leaves state and attributes as they were
      ensures !Available() ==> raised.None? && state == old(state) && attributes == old(attributes)
      // a login form without a method attribute ends the cycle before extraction
      ensures raised == Some(FormMethodMissing) ==> prelogin.Some? && state == old(state) && attributes == old(attributes)
      ensures raised.None? && Available() ==> state == Some(StatePresent)
      ensures raised.Some? ==> state == old(state)
      // otherwise a successful fetch runs the extraction on the retained body
      ensures Available() && raised != Some(FormMethodMissing) && selectors == [] ==>
                raised.None? && attributes == old(attributes)
      ensures Available() && raised != Some(FormMethodMissing) && selectors != [] && rest.data.value == "" ==>
                raised.None? && attributes == Some(map[])
      ensures Available() && raised != Some(FormMethodMissing) && selectors != [] && rest.data.value != "" ==>
                var filled := Fill(env.parse(rest.data.value, parser), selectors, env.renderValue);
                && attributes == Some(filled.fields)
                && (raised.None? <==> filled.aborted.None?)
                && (filled.aborted.Some? ==> raised == Some(AttributeMissing(filled.aborted.value)))
    {
      if prelogin.Some? {
        var outcome := Prelogin(prelogin.value, env);
        if outcome == PageUnavailable {
          return None;
        }
        if outcome == FormWithoutMethod {
          return Some(FormMethodMissing);
        }
      } else {
        if resourceTemplate.Some? {
          rest.SetUrl(env.renderUrl(resourceTemplate.value));
        }
        rest.Update(env.net);
      }
      if rest.data.None? {
        return None;
      }
      raised := None;
      if selectors != [] {
        var d := env.parse(rest.data.value, parser);
        attributes := Some(map[]);
        if rest.data.value != "" {
          var missing := ExtractFields(d, env.renderValue);
          if missing.Some? {
            return Some(AttributeMissing(missing.value));
          }
        }
      }
      state := Some(StatePresent);
    }
  }
}
