/**
 * `OktaGPConnect._extract_form` (connect.py:117-119): the action of the first form
 * of the redirect page and the map from its direct `input` children's names to
 * their values, later names overriding earlier ones.
 */
module Forms {
  import opened Wrappers
  import opened Messages

  /** A direct child element of a form: its tag and its attributes. */
  datatype Element = Element(tag: string, attrib: map<string, string>)

  /** A form: its attributes and its direct children, in document order. */
  datatype Form = Form(attrib: map<string, string>, children: seq<Element>)

  /** The already-parsed page: its forms at any depth, in document order. */
  datatype Page = Page(forms: seq<Form>)

  /** The request a form is submitted as: its action and its fields. */
  datatype Submission = Submission(action: string, fields: map<string, string>)

  predicate IsInput(e: Element) {
    e.tag == "input"
  }

  /** An element the comprehension can read without a KeyError. */
  predicate Readable(e: Element) {
    IsInput(e) ==> "name" in e.attrib && "value" in e.attrib
  }

  /** `e` is an input named `k`. */
  predicate Names(e: Element, k: string) {
    IsInput(e) && "name" in e.attrib && e.attrib["name"] == k
  }

  /** No input after position `i` carries the name `k`. */
  ghost predicate LastNamed(children: seq<Element>, i: int, k: string)
    requires 0 <= i < |children|
  {
    Names(children[i], k) && forall j :: i < j < |children| ==> !Names(children[j], k)
  }

  /**
   * `m` is the field map of `children`, all of whose inputs are readable: its keys
   * are exactly the names of the inputs, and each maps to the value of the last
   * input of that name.
   */
  ghost predicate FieldsOf(children: seq<Element>, m: map<string, string>) {
    && (forall i :: 0 <= i < |children| ==> Readable(children[i]))
    && (forall k :: k in m <==> exists i :: 0 <= i < |children| && Names(children[i], k))
    && (forall i, k :: 0 <= i < |children| && LastNamed(children, i, k) ==>
          k in m && m[k] == children[i].attrib["value"])
  }

  /**
   * The KeyError raised for an unreadable input. The key of a dict comprehension
   * is evaluated before its value from Python 3.8 on, so `name` is looked up first.
   */
  function MissingOf(e: Element): Failure {
    MissingAttribute(if "name" !in e.attrib then "name" else "value")
  }

  /** A name last given at `i < |init|` in `init + [last]` is last given there in `init` too. */
  lemma LastNamedInPrefix(init: seq<Element>, last: Element, i: nat, k: string)
    requires i < |init| && LastNamed(init + [last], i, k)
    ensures LastNamed(init, i, k) && !Names(last, k)
  {
    var children := init + [last];
    assert children[|init|] == last;
    forall j | i < j < |init| ensures !Names(init[j], k) {
      assert children[j] == init[j];
    }
  }

  /** Appending an element that is not an input leaves the field map as it is. */
  lemma FieldsOfSkip(init: seq<Element>, last: Element, m: map<string, string>)
    requires FieldsOf(init, m) && !IsInput(last)
    ensures FieldsOf(init + [last], m)
  {
    var children := init + [last];
    assert forall i :: 0 <= i < |init| ==> children[i] == init[i];
    assert children[|init|] == last;
    forall k | (exists i :: 0 <= i < |children| && Names(children[i], k)) ensures k in m {
      var i :| 0 <= i < |children| && Names(children[i], k);
      assert Names(init[i], k);
    }
    forall i, k | 0 <= i < |children| && LastNamed(children, i, k)
      ensures k in m && m[k] == children[i].attrib["value"]
    {
      LastNamedInPrefix(init, last, i, k);
    }
  }

  /** Appending a readable input binds its name to its value, over any earlier binding. */
  lemma FieldsOfBind(init: seq<Element>, last: Element, m: map<string, string>)
    requires FieldsOf(init, m) && IsInput(last) && Readable(last)
    ensures FieldsOf(init + [last], m[last.attrib["name"] := last.attrib["value"]])
  {
    var children := init + [last];
    var n := last.attrib["name"];
    var m' := m[n := last.attrib["value"]];
    assert forall i :: 0 <= i < |init| ==> children[i] == init[i];
    assert children[|init|] == last;
    forall k | k in m' ensures exists i :: 0 <= i < |children| && Names(children[i], k) {
      if k == n {
        assert Names(children[|init|], k);
      } else {
        var i :| 0 <= i < |init| && Names(init[i], k);
        assert Names(children[i], k);
      }
    }
    forall k | (exists i :: 0 <= i < |children| && Names(children[i], k)) ensures k in m' {
      var i :| 0 <= i < |children| && Names(children[i], k);
      if i < |init| {
        assert Names(init[i], k);
      }
    }
    forall i, k | 0 <= i < |children| && LastNamed(children, i, k)
      ensures k in m' && m'[k] == children[i].attrib["value"]
    {
      if i < |init| {
        LastNamedInPrefix(init, last, i, k);
      }
    }
  }

  /**
   * `{inp.attrib["name"]: inp.attrib["value"] for inp in form.findall("input")}`.
   * On success the result is the field map of the children (`FieldsOf`);
   * otherwise the error is the KeyError of the first unreadable input.
   */
  function FieldMap(children: seq<Element>): (r: Result<map<string, string>, Failure>)
    ensures r.Ok? <==> forall i :: 0 <= i < |children| ==> Readable(children[i])
    ensures r.Ok? ==> FieldsOf(children, r.value)
    ensures r.Err? ==> exists i :: 0 <= i < |children| && !Readable(children[i]) &&
                        (forall j :: 0 <= j < i ==> Readable(children[j])) &&
                        r.error == MissingOf(children[i])
    decreases |children|
  {
    if children == [] then Ok(map[])
    else
      var init := children[..|children| - 1];
      var last := children[|children| - 1];
      assert children == init + [last];
      match FieldMap(init)
      case Err(e) => Err(e)
      case Ok(m) =>
        if !IsInput(last) then
          FieldsOfSkip(init, last, m);
          Ok(m)
        else if !Readable(last) then Err(MissingOf(last))
        else
          FieldsOfBind(init, last, m);
          Ok(m[last.attrib["name"] := last.attrib["value"]])
  }

  /**
   * `_extract_form`: no form is an error (the attribute lookup on `None`), a form
   * without `action` is a KeyError, and otherwise the action is taken verbatim.
   */
  function ExtractForm(page: Page): (r: Result<Submission, Failure>)
    ensures page.forms == [] ==> r == Err(NoForm)
    ensures page.forms != [] && "action" !in page.forms[0].attrib ==> r == Err(MissingAttribute("action"))
    ensures r.Ok? <==> page.forms != [] && "action" in page.forms[0].attrib && FieldMap(page.forms[0].children).Ok?
    ensures page.forms != [] && "action" in page.forms[0].attrib && FieldMap(page.forms[0].children).Err? ==>
              r == Err(FieldMap(page.forms[0].children).error)
    ensures r.Ok? ==>
              && r.value.action == page.forms[0].attrib["action"]
              && r.value.fields == FieldMap(page.forms[0].children).value
  {
    if page.forms == [] then Err(NoForm)
    else
      var form := page.forms[0];
      if "action" !in form.attrib then Err(MissingAttribute("action"))
      else
        match FieldMap(form.children)
        case Err(e) => Err(e)
        case Ok(fields) => Ok(Submission(form.attrib["action"], fields))
  }

  /** Of two inputs with the same name, the later one's value is the one kept. */
  lemma LaterInputOverrides(children: seq<Element>, i: nat, j: nat, k: string)
    requires i < j < |children|
    requires Names(children[i], k) && Names(children[j], k)
    requires forall l :: j < l < |children| ==> !Names(children[l], k)
    requires FieldMap(children).Ok?
    ensures FieldMap(children).value[k] == children[j].attrib["value"]
  {
    assert LastNamed(children, j, k);
  }

  /** An element that is not `input`, appended last, does not change the field map. */
  lemma NonInputAppended(children: seq<Element>, other: Element)
    requires !IsInput(other)
    ensures FieldMap(children + [other]) == FieldMap(children)
  {
    assert (children + [other])[..|children|] == children;
  }

  /** The field map of a sequence depends only on that of its prefix and on its last element. */
  lemma SameLastSameFieldMap(c: seq<Element>, d: seq<Element>)
    requires |c| > 0 && |d| > 0 && c[|c| - 1] == d[|d| - 1]
    requires FieldMap(c[..|c| - 1]) == FieldMap(d[..|d| - 1])
    ensures FieldMap(c) == FieldMap(d)
  {
  }

  /** An element that is not `input` does not change the field map, wherever it stands. */
  lemma {:induction false} NonInputsIgnored(before: seq<Element>, other: Element, after: seq<Element>)
    requires !IsInput(other)
    ensures FieldMap(before + [other] + after) == FieldMap(before + after)
    decreases |after|
  {
    if after == [] {
      assert before + [other] + after == before + [other];
      assert before + after == before;
      NonInputAppended(before, other);
    } else {
      var init := after[..|after| - 1];
      NonInputsIgnored(before, other, init);
      var c := before + [other] + after;
      var d := before + after;
      assert c[..|c| - 1] == before + [other] + init;
      assert d[..|d| - 1] == before + init;
      SameLastSameFieldMap(c, d);
    }
  }
}
