/**
 * The page's forms as the cart handlers see them: controls with a kind, a
 * `name`, a `value` and a checked state, grouped into fieldsets, and the
 * selector queries the handlers run over them. The handlers' selector queries
 * over `input` controls become these queries over an explicit sequence of
 * controls; the `fieldset` and `legend` lookups become the `fieldsets` and
 * `legend` fields, and the form looked up by id in custom validation is taken
 * to be the submitted form.
 */
module Forms {

  datatype Option<T> = None | Some(value: T)

  /** The two kinds of `<input>` the forms contain. */
  datatype InputKind = Checkbox | Radio

  /** One form control, in document order within its container. */
  datatype Input = Input(kind: InputKind, name: string, value: string, checked: bool)

  /** A `<fieldset>`: the text of its `<legend>` and its controls. */
  datatype Fieldset = Fieldset(legend: string, inputs: seq<Input>)

  /**
   * A form whose "add to cart" button was clicked: its `id`, whether its
   * `data-custom` attribute is "true", every control of the form in document
   * order, and its fieldsets in document order.
   */
  datatype Form = Form(id: string, custom: bool, inputs: seq<Input>, fieldsets: seq<Fieldset>)

  /** The selectors the handlers query with. */
  datatype Query =
    | CheckedNamed(name: string)   // input[name="…"]:checked
    | CheckedBox                   // input[type='checkbox']:checked
    | UncheckedBox                 // input[type=checkbox], keeping the unchecked ones

  predicate Matches(x: Input, q: Query) {
    match q
    case CheckedNamed(n) => x.name == n && x.checked
    case CheckedBox => x.kind == Checkbox && x.checked
    case UncheckedBox => x.kind == Checkbox && !x.checked
  }

  /**
   * The values of the controls matching `q`, in document order: what
   * `[...root.querySelectorAll(q)].map(cb => cb.value)` yields.
   */
  function Values(inputs: seq<Input>, q: Query): (r: seq<string>)
    ensures |r| <= |inputs|
    ensures forall v :: v in r <==>
      exists k :: 0 <= k < |inputs| && Matches(inputs[k], q) && inputs[k].value == v
  {
    if inputs == [] then []
    else
      var rest := Values(inputs[1..], q);
      assert forall k :: 0 < k < |inputs| ==> inputs[k] == inputs[1..][k - 1];
      (if Matches(inputs[0], q) then [inputs[0].value] else []) + rest
  }

  /** Querying a concatenation of containers queries each in turn. */
  lemma {:induction false} ValuesAppend(a: seq<Input>, b: seq<Input>, q: Query)
    ensures Values(a + b, q) == Values(a, q) + Values(b, q)
  {
    if a == [] {
      assert a + b == b;
    } else {
      var head := if Matches(a[0], q) then [a[0].value] else [];
      calc {
        Values(a + b, q);
        { assert (a + b)[0] == a[0]; }
        head + Values((a + b)[1..], q);
        { assert (a + b)[1..] == a[1..] + b; }
        head + Values(a[1..] + b, q);
        { ValuesAppend(a[1..], b, q); }
        head + (Values(a[1..], q) + Values(b, q));
        Values(a, q) + Values(b, q);
      }
    }
  }

  /** A single control contributes its value iff it matches; with `ValuesAppend` this fixes `Values` on every input: one value per matching control, in document order. */
  lemma ValuesSingle(x: Input, q: Query)
    ensures Values([x], q) == (if Matches(x, q) then [x.value] else [])
  {
    assert [x][1..] == [];
  }

  /** A container in which no control matches yields nothing. */
  lemma ValuesNone(inputs: seq<Input>, q: Query)
    requires forall k :: 0 <= k < |inputs| ==> !Matches(inputs[k], q)
    ensures Values(inputs, q) == []
  {
  }

  /** The value of the first control matching `q`: `root.querySelector(q)?.value`. */
  function First(inputs: seq<Input>, q: Query): (r: Option<string>)
    ensures r.None? <==> Values(inputs, q) == []
    ensures r.Some? ==> r.value == Values(inputs, q)[0]
  {
    if inputs == [] then None
    else if Matches(inputs[0], q) then Some(inputs[0].value)
    else First(inputs[1..], q)
  }

  /** `part` occurs in `s` starting at position `i`. */
  predicate OccursAt(s: string, part: string, i: int) {
    0 <= i && i + |part| <= |s| && s[i..i + |part|] == part
  }

  /** JavaScript's `s.includes(part)`. */
  function Contains(s: string, part: string): (b: bool)
    ensures b <==> exists i :: OccursAt(s, part, i)
    decreases |s|
  {
    if |s| < |part| then
      assert forall i :: !OccursAt(s, part, i);
      false
    else if s[..|part|] == part then
      assert OccursAt(s, part, 0);
      true
    else
      var b := Contains(s[1..], part);
      assert forall i :: OccursAt(s[1..], part, i) ==> OccursAt(s, part, i + 1) by {
        forall i | OccursAt(s[1..], part, i) ensures OccursAt(s, part, i + 1) {
          assert s[1..][i..i + |part|] == s[i + 1..i + 1 + |part|];
        }
      }
      assert forall i :: OccursAt(s, part, i) ==> OccursAt(s[1..], part, i - 1) by {
        forall i | OccursAt(s, part, i) ensures OccursAt(s[1..], part, i - 1) {
          assert i != 0;
          assert s[1..][i - 1..i - 1 + |part|] == s[i..i + |part|];
        }
      }
      b
  }
}
