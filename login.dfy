/** The pure parts of the pre-login step: finding the login form and building
    the form data that is submitted (sensor.py:244-265). */
module Login {
  import opened Wrappers
  import opened Document
  import opened Dict

  /** The attributes the login form is looked up by, in priority order. */
  const LookupOrder: seq<string> := ["name", "id", "class", "action"]

  /** The form carries attribute `key` with exactly the value `ident`. */
  predicate MatchesOn(f: Form, key: string, ident: string) {
    key in f.attrs && f.attrs[key] == ident
  }

  /** `find('form', attrs={key: ident})`: the index of the first form in
      document order that matches, or None when no form does. */
  function FindForm(forms: seq<Form>, key: string, ident: string): (r: Option<nat>)
    ensures r.None? <==> forall i :: 0 <= i < |forms| ==> !MatchesOn(forms[i], key, ident)
    ensures r.Some? ==> r.value < |forms| && MatchesOn(forms[r.value], key, ident)
    ensures r.Some? ==> forall i :: 0 <= i < r.value ==> !MatchesOn(forms[i], key, ident)
  {
    if |forms| == 0 then None
    else if MatchesOn(forms[0], key, ident) then Some(0)
    else
      match FindForm(forms[1..], key, ident)
      case None => None
      case Some(k) => Some(k + 1)
  }

  /** Form `f` is the first form that matches on `key`. */
  ghost predicate FirstOn(forms: seq<Form>, key: string, ident: string, f: Form) {
    exists i :: 0 <= i < |forms| && forms[i] == f && MatchesOn(forms[i], key, ident) &&
      forall j :: 0 <= j < i ==> !MatchesOn(forms[j], key, ident)
  }

  /** No form matches on `key`. */
  ghost predicate NoneOn(forms: seq<Form>, key: string, ident: string) {
    forall i :: 0 <= i < |forms| ==> !MatchesOn(forms[i], key, ident)
  }

  /** The lookup chain of sensor.py:245-251: by name, else by id, else by
      class, else by action. */
  function LocateForm(forms: seq<Form>, ident: string): (r: Option<Form>)
  {
    var byName := FindForm(forms, "name", ident);
    if byName.Some? then Some(forms[byName.value]) else
    var byId := FindForm(forms, "id", ident);
    if byId.Some? then Some(forms[byId.value]) else
    var byClass := FindForm(forms, "class", ident);
    if byClass.Some? then Some(forms[byClass.value]) else
    var byAction := FindForm(forms, "action", ident);
    if byAction.Some? then Some(forms[byAction.value]) else None
  }

  /** The lookup follows the fixed priority: the result is the first form
      matching on the earliest attribute of `LookupOrder` that any form matches
      on, and there is no result exactly when no form matches on any of them. */
  lemma LocateFormPriority(forms: seq<Form>, ident: string)
    ensures LocateForm(forms, ident).None? <==>
              forall k :: 0 <= k < |LookupOrder| ==> NoneOn(forms, LookupOrder[k], ident)
    ensures LocateForm(forms, ident).Some? ==>
              exists k :: 0 <= k < |LookupOrder| &&
                FirstOn(forms, LookupOrder[k], ident, LocateForm(forms, ident).value) &&
                forall k' :: 0 <= k' < k ==> NoneOn(forms, LookupOrder[k'], ident)
  {
    var r := LocateForm(forms, ident);
    var byName := FindForm(forms, "name", ident);
    var byId := FindForm(forms, "id", ident);
    var byClass := FindForm(forms, "class", ident);
    var byAction := FindForm(forms, "action", ident);
    if byName.Some? {
      assert FirstOn(forms, LookupOrder[0], ident, r.value);
    } else if byId.Some? {
      assert NoneOn(forms, LookupOrder[0], ident);
      assert FirstOn(forms, LookupOrder[1], ident, r.value);
    } else if byClass.Some? {
      assert NoneOn(forms, LookupOrder[0], ident);
      assert NoneOn(forms, LookupOrder[1], ident);
      assert FirstOn(forms, LookupOrder[2], ident, r.value);
    } else if byAction.Some? {
      assert NoneOn(forms, LookupOrder[0], ident);
      assert NoneOn(forms, LookupOrder[1], ident);
      assert NoneOn(forms, LookupOrder[2], ident);
      assert FirstOn(forms, LookupOrder[3], ident, r.value);
    } else {
      assert NoneOn(forms, LookupOrder[0], ident);
      assert NoneOn(forms, LookupOrder[1], ident);
      assert NoneOn(forms, LookupOrder[2], ident);
      assert NoneOn(forms, LookupOrder[3], ident);
    }
  }

  /** A form matching on `name` wins over every form matching only on a later
      attribute, wherever they stand in the document. */
  lemma NameWins(forms: seq<Form>, ident: string, i: nat)
    requires i < |forms| && MatchesOn(forms[i], "name", ident)
    ensures LocateForm(forms, ident).Some?
    ensures MatchesOn(LocateForm(forms, ident).value, "name", ident)
  {
  }

  /** The form-data key of an input: its `name`, or None when it has none
      (such inputs are kept under a None key, not dropped). */
  function FieldKey(input: Element): Value {
    Get(input.attrs, "name")
  }

  /** `dict((field.get('name'), field.get('value')) for field in fields)`:
      a later input with the same key overwrites the value in place. */
  function FieldMap(inputs: seq<Element>): Dict<Value, Value>
    decreases |inputs|
  {
    if |inputs| == 0 then []
    else
      var last := inputs[|inputs| - 1];
      Put(FieldMap(inputs[..|inputs| - 1]), FieldKey(last), Get(last.attrs, "value"))
  }

  /** No key appears twice in the field map. */
  lemma {:induction false} FieldMapDistinct(inputs: seq<Element>)
    ensures DistinctKeys(FieldMap(inputs))
    decreases |inputs|
  {
    if |inputs| > 0 {
      var last := inputs[|inputs| - 1];
      FieldMapDistinct(inputs[..|inputs| - 1]);
      PutDistinct(FieldMap(inputs[..|inputs| - 1]), FieldKey(last), Get(last.attrs, "value"));
    }
  }

  /** `i` is the last input whose key is `k`. */
  predicate LastWithKey(inputs: seq<Element>, k: Value, i: int) {
    0 <= i < |inputs| && FieldKey(inputs[i]) == k &&
    forall j :: i < j < |inputs| ==> FieldKey(inputs[j]) != k
  }

  /** `i` is the first input whose key is `k`. */
  predicate FirstWithKey(inputs: seq<Element>, k: Value, i: int) {
    0 <= i < |inputs| && FieldKey(inputs[i]) == k &&
    forall j :: 0 <= j < i ==> FieldKey(inputs[j]) != k
  }

  /** The keys of the field map are exactly the inputs' keys. */
  lemma {:induction false} FieldMapKeys(inputs: seq<Element>, k: Value)
    ensures HasKey(FieldMap(inputs), k) <==> exists i :: 0 <= i < |inputs| && FieldKey(inputs[i]) == k
    decreases |inputs|
  {
    if |inputs| > 0 {
      var n := |inputs| - 1;
      var init := inputs[..n];
      var last := inputs[n];
      var before := FieldMap(init);
      assert FieldMap(inputs) == Put(before, FieldKey(last), Get(last.attrs, "value"));
      FieldMapKeys(init, k);
      PutLookup(before, FieldKey(last), Get(last.attrs, "value"), k);
      if exists i :: 0 <= i < |inputs| && FieldKey(inputs[i]) == k {
        var i :| 0 <= i < |inputs| && FieldKey(inputs[i]) == k;
        if i < n { assert FieldKey(init[i]) == k; }
      }
      if exists i :: 0 <= i < n && FieldKey(init[i]) == k {
        var i :| 0 <= i < n && FieldKey(init[i]) == k;
        assert FieldKey(inputs[i]) == k;
      }
    }
  }

  /** Each key of the field map holds the `value` of the last input carrying
      it. */
  lemma {:induction false} FieldMapValues(inputs: seq<Element>, k: Value, i: nat)
    requires LastWithKey(inputs, k, i)
    ensures Lookup(FieldMap(inputs), k) == Some(Get(inputs[i].attrs, "value"))
    decreases |inputs|
  {
    var n := |inputs| - 1;
    var init := inputs[..n];
    var last := inputs[n];
    var before := FieldMap(init);
    assert FieldMap(inputs) == Put(before, FieldKey(last), Get(last.attrs, "value"));
    PutLookup(before, FieldKey(last), Get(last.attrs, "value"), k);
    if i < n {
      assert LastWithKey(init, k, i);
      FieldMapValues(init, k, i);
    }
  }

  /** The entries of the field map are ordered by the first input carrying
      each key. */
  lemma {:induction false} FieldMapOrder(inputs: seq<Element>, p: nat, q: nat, a: nat, b: nat)
    requires p < q < |FieldMap(inputs)|
    requires FirstWithKey(inputs, FieldMap(inputs)[p].0, a)
    requires FirstWithKey(inputs, FieldMap(inputs)[q].0, b)
    ensures a < b
    decreases |inputs|
  {
    var n := |inputs| - 1;
    var init := inputs[..n];
    var last := inputs[n];
    var before := FieldMap(init);
    assert forall i :: 0 <= i < n ==> init[i] == inputs[i];
    // every key already in the map stands first at an input before the last one
    forall r: nat, c: nat | r < |before| && FirstWithKey(inputs, before[r].0, c)
      ensures c < n && FirstWithKey(init, before[r].0, c)
    {
      FieldMapKeys(init, before[r].0);
      assert HasKey(before, before[r].0);
      var i :| 0 <= i < n && FieldKey(init[i]) == before[r].0;
      assert FieldKey(inputs[i]) == before[r].0;
    }
    assert FieldMap(inputs) == Put(before, FieldKey(last), Get(last.attrs, "value"));
    PutKeepsOrder(before, FieldKey(last), Get(last.attrs, "value"), p);
    if q < |before| {
      PutKeepsOrder(before, FieldKey(last), Get(last.attrs, "value"), q);
      FieldMapOrder(init, p, q, a, b);
    } else {
      assert !HasKey(before, FieldKey(last));
      FieldMapKeys(init, FieldKey(last));
      assert FieldMap(inputs)[q].0 == FieldKey(last);
    }
  }

  /** The credentials of the pre-login block, and the field names they are
      submitted under. */
  datatype Credentials = Credentials(
    username: string,
    password: string,
    usernameField: string,
    passwordField: string)

  /** The submitted form data (sensor.py:260-265). */
  function LoginFormData(inputs: seq<Element>, c: Credentials): Dict<Value, Value>
  {
    Put(Put(FieldMap(inputs), Some(c.usernameField), Some(c.username)), Some(c.passwordField), Some(c.password))
  }

  /** The form data always carries the configured password under the password
      field and, when the two field names differ, the configured username under
      the username field, whatever the form's own inputs hold; every other key
      keeps the value of the last input with that key, and no other key
      appears. */
  lemma LoginFormDataContents(inputs: seq<Element>, c: Credentials, k: Value)
    ensures DistinctKeys(LoginFormData(inputs, c))
    ensures Lookup(LoginFormData(inputs, c), Some(c.passwordField)) == Some(Some(c.password))
    ensures c.usernameField != c.passwordField ==>
              Lookup(LoginFormData(inputs, c), Some(c.usernameField)) == Some(Some(c.username))
    ensures k != Some(c.usernameField) && k != Some(c.passwordField) ==>
              (HasKey(LoginFormData(inputs, c), k) <==> exists i :: 0 <= i < |inputs| && FieldKey(inputs[i]) == k)
    ensures k != Some(c.usernameField) && k != Some(c.passwordField) ==>
              forall i :: LastWithKey(inputs, k, i) ==>
                Lookup(LoginFormData(inputs, c), k) == Some(Get(inputs[i].attrs, "value"))
  {
    var fields := FieldMap(inputs);
    var withUser := Put(fields, Some(c.usernameField), Some(c.username));
    FieldMapKeys(inputs, k);
    FieldMapDistinct(inputs);
    forall i | LastWithKey(inputs, k, i)
      ensures Lookup(fields, k) == Some(Get(inputs[i].attrs, "value"))
    {
      FieldMapValues(inputs, k, i);
    }
    PutDistinct(fields, Some(c.usernameField), Some(c.username));
    PutDistinct(withUser, Some(c.passwordField), Some(c.password));
    PutLookup(fields, Some(c.usernameField), Some(c.username), k);
    PutLookup(withUser, Some(c.passwordField), Some(c.password), k);
    PutLookup(withUser, Some(c.passwordField), Some(c.password), Some(c.usernameField));
  }

  /** The inputs' entries come first, in their order, and each credential
      field that no input carries is appended after them: the username field,
      then the password field. */
  lemma LoginFormDataOrder(inputs: seq<Element>, c: Credentials, i: nat)
    ensures i < |FieldMap(inputs)| ==>
              i < |LoginFormData(inputs, c)| && LoginFormData(inputs, c)[i].0 == FieldMap(inputs)[i].0
    ensures !HasKey(FieldMap(inputs), Some(c.usernameField)) && c.usernameField != c.passwordField ==>
              LoginFormData(inputs, c)[|FieldMap(inputs)|] == (Some(c.usernameField), Some(c.username))
    ensures !HasKey(FieldMap(inputs), Some(c.passwordField)) ==>
              LoginFormData(inputs, c)[|LoginFormData(inputs, c)| - 1] == (Some(c.passwordField), Some(c.password))
  {
    var fields := FieldMap(inputs);
    var withUser := Put(fields, Some(c.usernameField), Some(c.username));
    if i < |fields| {
      PutKeepsOrder(fields, Some(c.usernameField), Some(c.username), i);
      PutKeepsOrder(withUser, Some(c.passwordField), Some(c.password), i);
    }
    if !HasKey(fields, Some(c.usernameField)) && c.usernameField != c.passwordField {
      PutKeepsOrder(withUser, Some(c.passwordField), Some(c.password), |fields|);
      assert withUser[|fields|] == (Some(c.usernameField), Some(c.username));
      if HasKey(withUser, Some(c.passwordField)) {
        // the password write replaces an existing entry, never the username's
        PutLookup(withUser, Some(c.passwordField), Some(c.password), Some(c.usernameField));
        PutOverwrite(withUser, Some(c.passwordField), Some(c.password), |fields|);
      }
    }
    if !HasKey(fields, Some(c.passwordField)) {
      if c.usernameField == c.passwordField {
        PutAgain(fields, Some(c.passwordField), Some(c.username), Some(c.password));
      } else if HasKey(withUser, Some(c.passwordField)) {
        var j :| 0 <= j < |withUser| && withUser[j].0 == Some(c.passwordField);
        if j < |fields| {
          PutKeepsOrder(fields, Some(c.usernameField), Some(c.username), j);
        }
        assert false;
      }
    }
  }

  /** An input without a `name` puts a None key into the submitted data. */
  lemma UnnamedInputKept(inputs: seq<Element>, c: Credentials, i: nat)
    requires i < |inputs| && "name" !in inputs[i].attrs
    ensures HasKey(LoginFormData(inputs, c), None)
  {
    LoginFormDataContents(inputs, c, None);
  }

  /** `<form id="login"><input name="user"><input name="pass" value=""></form>`
      looked up as "login", with field names "user" and "pass": the form is
      found by its id and the submitted data is exactly the two credentials,
      in the inputs' order. */
  lemma LoginExample(username: string, password: string)
    ensures
      var form := Form(map["id" := "login"],
                       [Element("input", map["name" := "user"], "", None),
                        Element("input", map["name" := "pass", "value" := ""], "", None)]);
      var c := Credentials(username, password, "user", "pass");
      && LocateForm([form], "login") == Some(form)
      && LoginFormData(form.inputs, c) == [(Some("user"), Some(username)), (Some("pass"), Some(password))]
  {
    var user := Element("input", map["name" := "user"], "", None);
    var pass := Element("input", map["name" := "pass", "value" := ""], "", None);
    var form := Form(map["id" := "login"], [user, pass]);
    var c := Credentials(username, password, "user", "pass");
    assert !MatchesOn(form, "name", "login");
    assert FindForm([form], "id", "login") == Some(0);
    assert [user, pass][..1] == [user];
    assert [user][..0] == [];
    assert FieldKey(user) == Some("user") && Get(user.attrs, "value") == None;
    assert FieldKey(pass) == Some("pass") && Get(pass.attrs, "value") == Some("");
    assert FieldMap([user]) == [(Some("user"), None)];
    var fields := [(Some("user"), None), (Some("pass"), Some(""))];
    assert FieldMap([user, pass]) == fields;
    assert fields[0].0 == Some("user");
    var withUser := [(Some("user"), Some(username)), (Some("pass"), Some(""))];
    assert Put(fields, Some("user"), Some(username)) == withUser;
    assert withUser[1..] == [(Some("pass"), Some(""))];
    assert Put(withUser[1..], Some("pass"), Some(password)) == [(Some("pass"), Some(password))];
    assert Put(withUser, Some("pass"), Some(password)) == [(Some("user"), Some(username)), (Some("pass"), Some(password))];
  }
}
