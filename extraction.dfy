/** Selector extraction (sensor.py:299-341): each configured selector picks one
    element of the document, a value is taken from it, optionally passed
    through the selector's value template, and stored under the selector's
    name.  A selector whose index is out of range is skipped; a missing
    attribute raises KeyError, which ends the whole cycle. */
module Extraction {
  import opened Wrappers
  import opened Document

  /** One entry of the `selectors` configuration. */
  datatype SelectorSpec = SelectorSpec(
    name: string,
    select: string,
    attr: Option<string>,
    index: nat,
    valueTemplate: Option<string>,
    unit: Option<string>)

  /** `render_with_possible_json_value`: an opaque rendering of a template
      expression applied to a raw value. */
  type ValueRenderer = (string, Value) -> Value

  /** What one selector yields: a raw value, an IndexError, or a KeyError
      naming the missing attribute. */
  datatype Extraction = Found(raw: Value) | IndexOutOfRange | MissingAttribute(key: string)

  /** Tags whose `string` is taken instead of their `text`. */
  const RawStringTags: set<string> := {"style", "script", "template"}

  /** The value taken from a matched element (sensor.py:317-324). */
  function ElementValue(el: Element, attr: Option<string>): Extraction {
    if attr.Some? then
      if attr.value in el.attrs then Found(Some(el.attrs[attr.value])) else MissingAttribute(attr.value)
    else if el.tag in RawStringTags then Found(el.str)
    else Found(Some(el.text))
  }

  /** `result.select(select)[index]`, then the value of that element. */
  function Extract(d: Doc, s: SelectorSpec): Extraction {
    var found := Select(d, s.select);
    if s.index < |found| then ElementValue(found[s.index], s.attr) else IndexOutOfRange
  }

  /** The value stored for a raw value: its rendering when the selector has a
      value template, the raw value itself otherwise. */
  function Stored(s: SelectorSpec, raw: Value, render: ValueRenderer): Value {
    if s.valueTemplate.Some? then render(s.valueTemplate.value, raw) else raw
  }

  /** The rule for one selector, stated against the document's matches: an
      IndexError exactly when the index is not below the number of matches;
      otherwise the attribute when one is configured (a KeyError when the
      element lacks it), else `string` for style/script/template tags and
      `text` for every other tag. */
  lemma ExtractionRule(d: Doc, s: SelectorSpec)
    ensures Extract(d, s) == IndexOutOfRange <==> s.index >= |Select(d, s.select)|
    ensures s.index < |Select(d, s.select)| ==>
              var el := Select(d, s.select)[s.index];
              && (s.attr.Some? && s.attr.value !in el.attrs ==> Extract(d, s) == MissingAttribute(s.attr.value))
              && (s.attr.Some? && s.attr.value in el.attrs ==> Extract(d, s) == Found(Some(el.attrs[s.attr.value])))
              && (s.attr.None? && el.tag in {"style", "script", "template"} ==> Extract(d, s) == Found(el.str))
              && (s.attr.None? && el.tag !in {"style", "script", "template"} ==> Extract(d, s) == Found(Some(el.text)))
    ensures s.select !in d.matches ==> Extract(d, s) == IndexOutOfRange
  {
  }

  /** The attributes filled so far, and the key of the KeyError that ended the
      loop, if one did. */
  datatype Filled = Filled(fields: map<string, Value>, aborted: Option<string>)

  /** The `for` loop over the selectors, as a function of the selectors seen. */
  function Fill(d: Doc, sels: seq<SelectorSpec>, render: ValueRenderer): Filled
    decreases |sels|
  {
    if |sels| == 0 then Filled(map[], None)
    else
      var before := Fill(d, sels[..|sels| - 1], render);
      var s := sels[|sels| - 1];
      if before.aborted.Some? then before
      else
        match Extract(d, s)
        case IndexOutOfRange => before
        case MissingAttribute(k) => Filled(before.fields, Some(k))
        case Found(raw) => Filled(before.fields[s.name := Stored(s, raw, render)], None)
  }

  /** No selector raises KeyError. */
  predicate NoMissing(d: Doc, sels: seq<SelectorSpec>) {
    forall i :: 0 <= i < |sels| ==> !Extract(d, sels[i]).MissingAttribute?
  }

  /** The loop runs to its end exactly when no selector raises KeyError. */
  lemma {:induction false} FillCompletes(d: Doc, sels: seq<SelectorSpec>, render: ValueRenderer)
    ensures Fill(d, sels, render).aborted.None? <==> NoMissing(d, sels)
    decreases |sels|
  {
    if |sels| > 0 {
      var n := |sels| - 1;
      var init := sels[..n];
      assert forall i :: 0 <= i < n ==> init[i] == sels[i];
      FillCompletes(d, init, render);
      if !NoMissing(d, init) {
        var i :| 0 <= i < n && Extract(d, init[i]).MissingAttribute?;
        assert Extract(d, sels[i]).MissingAttribute?;
      }
    }
  }

  /** Selector `s` is named `k` and extracts a value. */
  predicate FoundAs(d: Doc, s: SelectorSpec, k: string) {
    s.name == k && Extract(d, s).Found?
  }

  /** `i` is the last selector named `k` that extracts a value. */
  predicate LastFound(d: Doc, sels: seq<SelectorSpec>, k: string, i: int) {
    0 <= i < |sels| && FoundAs(d, sels[i], k) &&
    forall j :: i < j < |sels| ==> !FoundAs(d, sels[j], k)
  }

  /** One more selector that raises no KeyError, after a loop that raised
      none: the loop goes on and fills that selector's name if it matched. */
  lemma FillStep(d: Doc, sels: seq<SelectorSpec>, render: ValueRenderer)
    requires |sels| > 0 && !Extract(d, sels[|sels| - 1]).MissingAttribute?
    requires Fill(d, sels[..|sels| - 1], render).aborted.None?
    ensures var before := Fill(d, sels[..|sels| - 1], render);
            var s := sels[|sels| - 1];
            Fill(d, sels, render) ==
              if Extract(d, s).Found? then Filled(before.fields[s.name := Stored(s, Extract(d, s).raw, render)], None)
              else before
  {
  }

  /** Without a KeyError the loop completes, and the filled names are exactly
      the names of selectors whose index is in range. */
  lemma {:induction false} FillKeys(d: Doc, sels: seq<SelectorSpec>, render: ValueRenderer, k: string)
    requires NoMissing(d, sels)
    ensures Fill(d, sels, render).aborted.None?
    ensures k in Fill(d, sels, render).fields <==> exists i :: 0 <= i < |sels| && FoundAs(d, sels[i], k)
    decreases |sels|
  {
    if |sels| > 0 {
      var n := |sels| - 1;
      var init := sels[..n];
      assert forall i :: 0 <= i < n ==> init[i] == sels[i];
      FillKeys(d, init, render, k);
      FillStep(d, sels, render);
      if exists i :: 0 <= i < |sels| && FoundAs(d, sels[i], k) {
        var i :| 0 <= i < |sels| && FoundAs(d, sels[i], k);
        if i < n { assert FoundAs(d, init[i], k); }
      }
    }
  }

  /** Without a KeyError each filled name holds the stored value of the last
      selector carrying it whose index is in range. */
  lemma {:induction false} FillValues(d: Doc, sels: seq<SelectorSpec>, render: ValueRenderer, k: string, i: nat)
    requires NoMissing(d, sels)
    requires LastFound(d, sels, k, i)
    ensures k in Fill(d, sels, render).fields
    ensures Fill(d, sels, render).fields[k] == Stored(sels[i], Extract(d, sels[i]).raw, render)
    decreases |sels|
  {
    var n := |sels| - 1;
    var init := sels[..n];
    assert forall j :: 0 <= j < n ==> init[j] == sels[j];
    FillKeys(d, init, render, k);
    FillStep(d, sels, render);
    if i < n {
      assert LastFound(d, init, k, i);
      FillValues(d, init, render, k, i);
    }
  }

  /** The key of a KeyError raised by the first selector that raises one ends
      the loop, and the names filled before it stay as they were. */
  lemma {:induction false} FillAborts(d: Doc, sels: seq<SelectorSpec>, render: ValueRenderer, j: nat)
    requires j < |sels| && Extract(d, sels[j]).MissingAttribute?
    requires NoMissing(d, sels[..j])
    ensures Fill(d, sels, render) == Filled(Fill(d, sels[..j], render).fields, Some(Extract(d, sels[j]).key))
    decreases |sels|
  {
    var n := |sels| - 1;
    assert sels[..n + 1] == sels;
    if j == n {
      FillKeys(d, sels[..n], render, "");
    } else {
      assert sels[..n][..j] == sels[..j];
      FillAborts(d, sels[..n], render, j);
    }
  }

  /** A selector whose index is out of range leaves the result exactly as if
      it were not configured at all. */
  lemma {:induction false} FillSkips(d: Doc, a: seq<SelectorSpec>, s: SelectorSpec, b: seq<SelectorSpec>, render: ValueRenderer)
    requires Extract(d, s) == IndexOutOfRange
    ensures Fill(d, a + [s] + b, render) == Fill(d, a + b, render)
    decreases |b|
  {
    if |b| == 0 {
      assert a + [s] + b == a + [s];
      assert (a + [s])[..|a|] == a;
      assert a + b == a;
    } else {
      var m := |b| - 1;
      FillSkips(d, a, s, b[..m], render);
      assert (a + [s] + b)[..|a| + 1 + m] == a + [s] + b[..m];
      assert (a + b)[..|a| + m] == a + b[..m];
      assert (a + [s] + b)[|a| + 1 + m] == b[m] == (a + b)[|a| + m];
    }
  }

  /** `.price` with no attribute and index 0, on a document whose only match is
      `<span class="price">19.99</span>`, yields the raw value "19.99". */
  lemma PriceExample(render: ValueRenderer)
    ensures
      var span := Element("span", map["class" := "price"], "19.99", Some("19.99"));
      var d := Doc([], map[".price" := [span]]);
      var price := SelectorSpec("price", ".price", None, 0, None, None);
      var missing := SelectorSpec("missing", ".missing", None, 0, None, None);
      Fill(d, [missing, price], render) == Filled(map["price" := Some("19.99")], None)
  {
    var span := Element("span", map["class" := "price"], "19.99", Some("19.99"));
    var d := Doc([], map[".price" := [span]]);
    var price := SelectorSpec("price", ".price", None, 0, None, None);
    var missing := SelectorSpec("missing", ".missing", None, 0, None, None);
    assert Select(d, ".missing") == [];
    assert Extract(d, missing) == IndexOutOfRange;
    assert Extract(d, price) == Found(Some("19.99"));
    assert [missing, price][..1] == [missing];
    assert [missing][..0] == [];
    assert Fill(d, [missing], render) == Filled(map[], None);
  }
}
