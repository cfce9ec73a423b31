/**
 * Editing a cart entry. Opening the editor builds a variant-specific form
 * pre-populated from the entry; the user may then only toggle controls on
 * and off; Save computes the entry's new fields from the form, Cancel
 * discards it. The forms are built from fixed lists (the two drink sizes,
 * the five category option lists, the signature topping universe), so Save
 * can only ever store values drawn from those lists.
 */
module Editing {
  import opened Forms
  import opened Entries

  /** The sizes a drink's edit form offers, as radio buttons named "size". */
  const SizeChoices: seq<string> := ["small", "large"]

  /** The toppings a signature edit form offers when the entry recorded none. */
  const DefaultToppings: seq<string> :=
    ["Tomato + Onion", "Pickled Onions", "Avocado", "Greens", "Feta", "Kalamata Olives"]

  /** `form` is the edit form `built` after the user toggled some of its controls. */
  predicate SameControls(form: seq<Input>, built: seq<Input>) {
    |form| == |built| &&
    forall k :: 0 <= k < |form| ==>
      form[k].kind == built[k].kind && form[k].name == built[k].name && form[k].value == built[k].value
  }

  // ----- Drink -----

  /** The drink editor: one radio per size, the entry's current size selected. */
  function DrinkEditForm(e: Entry): (r: seq<Input>)
    requires e.Drink?
    ensures |r| == |SizeChoices|
    ensures forall k :: 0 <= k < |r| ==>
      r[k].kind == Radio && r[k].name == "size" && r[k].value == SizeChoices[k] && (r[k].checked <==> e.size == SizeChoices[k])
    ensures forall i, j :: 0 <= i < |r| && 0 <= j < |r| && r[i].checked && r[j].checked ==> i == j
  {
    [Input(Radio, "size", "small", e.size == "small"), Input(Radio, "size", "large", e.size == "large")]
  }

  /** Drink Save: the first selected size, if there is one and it is not empty, becomes the size. */
  function SavedDrink(e: Entry, form: seq<Input>): (r: Entry)
    requires e.Drink?
    ensures r.Drink? && r.name == e.name && r.quantity == e.quantity
    ensures Values(form, CheckedNamed("size")) == [] ==> r == e
    ensures Values(form, CheckedNamed("size")) != [] ==>
      r == (if Values(form, CheckedNamed("size"))[0] != "" then e.(size := Values(form, CheckedNamed("size"))[0]) else e)
  {
    match First(form, CheckedNamed("size"))
    case Some(size) => if size != "" then e.(size := size) else e
    case None => e
  }

  /** After a drink Save the size is the old one or one of the two offered sizes. */
  lemma DrinkSaveSize(e: Entry, form: seq<Input>)
    requires e.Drink? && SameControls(form, DrinkEditForm(e))
    ensures SavedDrink(e, form).size == e.size || SavedDrink(e, form).size in SizeChoices
  {
    var sizes := Values(form, CheckedNamed("size"));
    if sizes != [] {
      assert sizes[0] in sizes;
      var k :| 0 <= k < |form| && Matches(form[k], CheckedNamed("size")) && form[k].value == sizes[0];
      assert form[k].value == DrinkEditForm(e)[k].value;
    }
  }

  /** Saving the drink editor untouched leaves the entry as it was. */
  lemma DrinkSaveUntouched(e: Entry)
    requires e.Drink?
    ensures SavedDrink(e, DrinkEditForm(e)) == e
  {
    var form := DrinkEditForm(e);
    assert form[1..][1..] == [];
  }

  // ----- Custom -----

  /** The checkboxes of one category: one per fixed option, checked iff the entry holds it. */
  function CategoryBoxes(e: Entry, c: Category): (r: seq<Input>)
    requires e.Custom?
    ensures |r| == |Options(c)|
    ensures forall k :: 0 <= k < |r| ==>
      r[k].kind == Checkbox && r[k].name == Key(c) && r[k].value == Options(c)[k] &&
      (r[k].checked <==> Options(c)[k] in Picks(e, c))
  {
    var opts := Options(c);
    seq(|opts|, k requires 0 <= k < |opts| => Input(Checkbox, Key(c), opts[k], opts[k] in Picks(e, c)))
  }

  /** The custom editor: the categories' checkboxes in the order base, protein, spreads, toppings, dressings. */
  function CustomEditForm(e: Entry): (r: seq<Input>)
    requires e.Custom?
    ensures |r| == Offset(Dressings) + |Options(Dressings)| == 22
    ensures forall x :: x in r ==> x.kind == Checkbox
  {
    CategoryBoxes(e, Base) + CategoryBoxes(e, Protein) + CategoryBoxes(e, Spreads)
      + CategoryBoxes(e, Toppings) + CategoryBoxes(e, Dressings)
  }

  /** Where a category's checkboxes start in the custom editor. */
  function Offset(c: Category): nat {
    match c
    case Base => 0
    case Protein => |Options(Base)|
    case Spreads => |Options(Base)| + |Options(Protein)|
    case Toppings => |Options(Base)| + |Options(Protein)| + |Options(Spreads)|
    case Dressings => |Options(Base)| + |Options(Protein)| + |Options(Spreads)| + |Options(Toppings)|
  }

  /** The slice of a custom editor holding one category's checkboxes. */
  function Segment(form: seq<Input>, c: Category): seq<Input>
    requires |form| == Offset(Dressings) + |Options(Dressings)|
  {
    form[Offset(c)..Offset(c) + |Options(c)|]
  }

  /** Custom Save: every category replaced wholesale by the values checked under its key. */
  function SavedCustom(e: Entry, form: seq<Input>): (r: Entry)
    requires e.Custom?
    ensures r.Custom? && r.name == e.name && r.quantity == e.quantity
    ensures forall c :: Picks(r, c) == Values(form, CheckedNamed(Key(c)))
  {
    Custom(e.name,
           Values(form, CheckedNamed("base")),
           Values(form, CheckedNamed("protein")),
           Values(form, CheckedNamed("spreads")),
           Values(form, CheckedNamed("toppings")),
           Values(form, CheckedNamed("dressings")),
           e.quantity)
  }

  /** An entry whose every category, taken in editor order, holds what the form checks under its key is the custom Save result. */
  lemma SavedCustomByCategories(e: Entry, form: seq<Input>, r: Entry)
    requires e.Custom? && r.Custom? && r.name == e.name && r.quantity == e.quantity
    requires forall j :: 0 <= j < |Categories| ==>
      Picks(r, Categories[j]) == Values(form, CheckedNamed(Key(Categories[j])))
    ensures r == SavedCustom(e, form)
  {
    assert Picks(r, Categories[0]) == Picks(SavedCustom(e, form), Base);
    assert Picks(r, Categories[1]) == Picks(SavedCustom(e, form), Protein);
    assert Picks(r, Categories[2]) == Picks(SavedCustom(e, form), Spreads);
    assert Picks(r, Categories[3]) == Picks(SavedCustom(e, form), Toppings);
    assert Picks(r, Categories[4]) == Picks(SavedCustom(e, form), Dressings);
  }

  /** Each checkbox of a category carries that category's key and one of its options, checked iff held. */
  lemma CategoryBoxesControls(e: Entry, d: Category)
    requires e.Custom?
    ensures forall x :: x in CategoryBoxes(e, d) ==>
      x.kind == Checkbox && x.name == Key(d) && x.value in Options(d) && (x.checked <==> x.value in Picks(e, d))
  {
  }

  /** Every control of the custom editor belongs to one category and carries one of its options. */
  lemma CustomEditControls(e: Entry)
    requires e.Custom?
    ensures forall x, c :: x in CustomEditForm(e) && x.name == Key(c) ==> x.value in Options(c)
  {
    forall x, c | x in CustomEditForm(e) && x.name == Key(c) ensures x.value in Options(c) {
      var d: Category;
      if x in CategoryBoxes(e, Base) { d := Base; }
      else if x in CategoryBoxes(e, Protein) { d := Protein; }
      else if x in CategoryBoxes(e, Spreads) { d := Spreads; }
      else if x in CategoryBoxes(e, Toppings) { d := Toppings; }
      else { d := Dressings; }
      CategoryBoxesControls(e, d);
      KeyInjective(c, d);
    }
  }

  /** A custom Save stores only values from the fixed option lists; anything else is dropped. */
  lemma CustomSaveWithinOptions(e: Entry, form: seq<Input>)
    requires e.Custom? && SameControls(form, CustomEditForm(e))
    ensures forall c, v :: v in Picks(SavedCustom(e, form), c) ==> v in Options(c)
  {
    CustomEditControls(e);
    forall c, v | v in Picks(SavedCustom(e, form), c) ensures v in Options(c) {
      var k :| 0 <= k < |form| && Matches(form[k], CheckedNamed(Key(c))) && form[k].value == v;
      assert CustomEditForm(e)[k] in CustomEditForm(e);
    }
  }

  /** Querying one category's checkboxes under a key finds exactly the held options, and only for that category. */
  lemma CategoryQuery(e: Entry, d: Category, c: Category)
    requires e.Custom?
    ensures forall v :: v in Values(CategoryBoxes(e, d), CheckedNamed(Key(c))) <==>
      d == c && v in Options(c) && v in Picks(e, c)
  {
    var boxes := CategoryBoxes(e, d);
    CategoryBoxesControls(e, d);
    KeyInjective(c, d);
    forall v ensures v in Values(boxes, CheckedNamed(Key(c))) <==> d == c && v in Options(c) && v in Picks(e, c) {
      if d == c && v in Options(c) && v in Picks(e, c) {
        var k :| 0 <= k < |Options(c)| && Options(c)[k] == v;
        assert Matches(boxes[k], CheckedNamed(Key(c))) && boxes[k].value == v;
      }
    }
  }

  /**
   * Saving the custom editor untouched keeps, per category, exactly the held
   * values that are among the fixed options.
   */
  lemma CustomSaveUntouched(e: Entry)
    requires e.Custom?
    ensures forall c, v :: v in Picks(SavedCustom(e, CustomEditForm(e)), c) <==> v in Options(c) && v in Picks(e, c)
  {
    forall c, v ensures v in Picks(SavedCustom(e, CustomEditForm(e)), c) <==> v in Options(c) && v in Picks(e, c) {
      var q := CheckedNamed(Key(c));
      var b, p, s, t, d := CategoryBoxes(e, Base), CategoryBoxes(e, Protein), CategoryBoxes(e, Spreads),
                           CategoryBoxes(e, Toppings), CategoryBoxes(e, Dressings);
      ValuesAppend(b + p + s + t, d, q);
      ValuesAppend(b + p + s, t, q);
      ValuesAppend(b + p, s, q);
      ValuesAppend(b, p, q);
      CategoryQuery(e, Base, c);
      CategoryQuery(e, Protein, c);
      CategoryQuery(e, Spreads, c);
      CategoryQuery(e, Toppings, c);
      CategoryQuery(e, Dressings, c);
    }
  }

  /** The custom editor's controls do not depend on what the entry holds. */
  lemma CustomEditLayout(e: Entry, e': Entry)
    requires e.Custom? && e'.Custom?
    ensures SameControls(CustomEditForm(e), CustomEditForm(e'))
  {
    forall c ensures SameControls(CategoryBoxes(e, c), CategoryBoxes(e', c)) {
    }
    var b, p, s, t, d := CategoryBoxes(e, Base), CategoryBoxes(e, Protein), CategoryBoxes(e, Spreads),
                         CategoryBoxes(e, Toppings), CategoryBoxes(e, Dressings);
    var b', p', s', t', d' := CategoryBoxes(e', Base), CategoryBoxes(e', Protein), CategoryBoxes(e', Spreads),
                              CategoryBoxes(e', Toppings), CategoryBoxes(e', Dressings);
    SameControlsAppend(b, p, b', p');
    SameControlsAppend(b + p, s, b' + p', s');
    SameControlsAppend(b + p + s, t, b' + p' + s', t');
    SameControlsAppend(b + p + s + t, d, b' + p' + s' + t', d');
  }

  /** Controls that agree part by part agree when the parts are laid end to end. */
  lemma SameControlsAppend(a: seq<Input>, b: seq<Input>, a': seq<Input>, b': seq<Input>)
    requires SameControls(a, a') && SameControls(b, b')
    ensures SameControls(a + b, a' + b')
  {
    forall k | 0 <= k < |a + b| ensures (a + b)[k].kind == (a' + b')[k].kind &&
      (a + b)[k].name == (a' + b')[k].name && (a + b)[k].value == (a' + b')[k].value
    {
      if k >= |a| {
        assert (a + b)[k] == b[k - |a|] && (a' + b')[k] == b'[k - |a|];
      }
    }
  }

  /** Reopening the editor and saving the same selections again changes nothing more. */
  lemma CustomSaveIdempotent(e: Entry, form: seq<Input>)
    requires e.Custom? && SameControls(form, CustomEditForm(e))
    ensures SameControls(form, CustomEditForm(SavedCustom(e, form)))
    ensures SavedCustom(SavedCustom(e, form), form) == SavedCustom(e, form)
  {
    CustomEditLayout(e, SavedCustom(e, form));
    CustomEqual(SavedCustom(SavedCustom(e, form), form), SavedCustom(e, form));
  }

  /** The custom editor is the five categories' checkboxes laid end to end. */
  lemma CustomEditSegments(e: Entry)
    requires e.Custom?
    ensures forall c :: Segment(CustomEditForm(e), c) == CategoryBoxes(e, c)
  {
    forall c ensures Segment(CustomEditForm(e), c) == CategoryBoxes(e, c) {
      CustomEditSegment(e, c);
    }
  }

  /** One category's slice of the custom editor is that category's checkboxes. */
  lemma CustomEditSegment(e: Entry, c: Category)
    requires e.Custom?
    ensures Segment(CustomEditForm(e), c) == CategoryBoxes(e, c)
  {
    SlicesOfFive(CategoryBoxes(e, Base), CategoryBoxes(e, Protein), CategoryBoxes(e, Spreads),
                 CategoryBoxes(e, Toppings), CategoryBoxes(e, Dressings));
  }

  /** Each of five sequences laid end to end is found at the sum of the lengths before it. */
  lemma SlicesOfFive(b: seq<Input>, p: seq<Input>, s: seq<Input>, t: seq<Input>, d: seq<Input>)
    ensures var f := b + p + s + t + d;
      var n1, n2 := |b|, |b| + |p|;
      var n3, n4 := n2 + |s|, n2 + |s| + |t|;
      f[0..n1] == b && f[n1..n2] == p && f[n2..n3] == s && f[n3..n4] == t && f[n4..n4 + |d|] == d
  {
  }

  /** Each category's slice of a submitted custom editor has that category's controls. */
  lemma SegmentControls(e: Entry, form: seq<Input>, c: Category)
    requires e.Custom? && SameControls(form, CustomEditForm(e))
    ensures SameControls(Segment(form, c), CategoryBoxes(e, c))
  {
    CustomEditSegment(e, c);
    SameControlsSlice(form, CustomEditForm(e), Offset(c), Offset(c) + |Options(c)|);
  }

  /** Controls that agree throughout agree on every slice. */
  lemma SameControlsSlice(form: seq<Input>, built: seq<Input>, i: nat, j: nat)
    requires SameControls(form, built) && i <= j <= |form|
    ensures SameControls(form[i..j], built[i..j])
  {
    forall k | 0 <= k < j - i ensures form[i..j][k].kind == built[i..j][k].kind &&
      form[i..j][k].name == built[i..j][k].name && form[i..j][k].value == built[i..j][k].value
    {
      assert form[i..j][k] == form[i + k] && built[i..j][k] == built[i + k];
    }
  }

  /** A submitted custom editor is its five slices laid end to end. */
  lemma SegmentsCover(form: seq<Input>)
    requires |form| == Offset(Dressings) + |Options(Dressings)|
    ensures form == Segment(form, Base) + Segment(form, Protein) + Segment(form, Spreads)
      + Segment(form, Toppings) + Segment(form, Dressings)
  {
    var n1, n2, n3, n4 := Offset(Protein), Offset(Spreads), Offset(Toppings), Offset(Dressings);
    assert form == form[..n1] + form[n1..n2] + form[n2..n3] + form[n3..n4] + form[n4..];
  }

  /** In a submitted custom editor, querying under a category's key reads only that category's slice. */
  lemma SegmentQuery(e: Entry, form: seq<Input>, c: Category)
    requires e.Custom? && SameControls(form, CustomEditForm(e))
    ensures Values(form, CheckedNamed(Key(c))) == Values(Segment(form, c), CheckedNamed(Key(c)))
  {
    var q := CheckedNamed(Key(c));
    forall d | d != c ensures Values(Segment(form, d), q) == [] {
      SegmentOtherKey(e, form, d, c);
    }
    SliceQuery(form, q, c);
  }

  /** When every other slice has nothing matching, querying the whole editor reads only slice `c`. */
  lemma SliceQuery(form: seq<Input>, q: Query, c: Category)
    requires |form| == Offset(Dressings) + |Options(Dressings)|
    requires forall d :: d != c ==> Values(Segment(form, d), q) == []
    ensures Values(form, q) == Values(Segment(form, c), q)
  {
    ValuesBySegments(form, q);
    var vb, vp, vs, vt, vd := Values(Segment(form, Base), q), Values(Segment(form, Protein), q),
                              Values(Segment(form, Spreads), q), Values(Segment(form, Toppings), q),
                              Values(Segment(form, Dressings), q);
    match c
    case Base => assert vp == vs == vt == vd == [];
    case Protein => assert vb == vs == vt == vd == [];
    case Spreads => assert vb == vp == vt == vd == [];
    case Toppings => assert vb == vp == vs == vd == [];
    case Dressings => assert vb == vp == vs == vt == [];
  }

  /** Querying a submitted custom editor queries its five slices in turn. */
  lemma ValuesBySegments(form: seq<Input>, q: Query)
    requires |form| == Offset(Dressings) + |Options(Dressings)|
    ensures Values(form, q) == Values(Segment(form, Base), q) + Values(Segment(form, Protein), q)
      + Values(Segment(form, Spreads), q) + Values(Segment(form, Toppings), q) + Values(Segment(form, Dressings), q)
  {
    SegmentsCover(form);
    ValuesOfFive(Segment(form, Base), Segment(form, Protein), Segment(form, Spreads),
                 Segment(form, Toppings), Segment(form, Dressings), q);
  }

  /** Another category's slice has nothing checked under this category's key. */
  lemma SegmentOtherKey(e: Entry, form: seq<Input>, d: Category, c: Category)
    requires e.Custom? && SameControls(form, CustomEditForm(e))
    ensures d != c ==> Values(Segment(form, d), CheckedNamed(Key(c))) == []
  {
    if d != c {
      SegmentControls(e, form, d);
      KeyInjective(c, d);
      ValuesNone(Segment(form, d), CheckedNamed(Key(c)));
    }
  }

  /** Querying five containers laid end to end queries each in turn. */
  lemma ValuesOfFive(b: seq<Input>, p: seq<Input>, s: seq<Input>, t: seq<Input>, d: seq<Input>, q: Query)
    ensures Values(b + p + s + t + d, q) == Values(b, q) + Values(p, q) + Values(s, q) + Values(t, q) + Values(d, q)
  {
    ValuesAppend(b + p + s + t, d, q);
    ValuesAppend(b + p + s, t, q);
    ValuesAppend(b + p, s, q);
    ValuesAppend(b, p, q);
  }

  /**
   * Reopening one category: if `s` holds what `seg` checks, the editor rebuilt
   * from `s` checks exactly the same boxes. This rests on the option lists
   * having no duplicates.
   */
  lemma SegmentReopen(e: Entry, s: Entry, seg: seq<Input>, c: Category)
    requires e.Custom? && s.Custom? && SameControls(seg, CategoryBoxes(e, c))
    requires Picks(s, c) == Values(seg, CheckedNamed(Key(c)))
    ensures CategoryBoxes(s, c) == seg
  {
    var q := CheckedNamed(Key(c));
    var boxes := CategoryBoxes(s, c);
    forall k | 0 <= k < |seg| ensures boxes[k] == seg[k] {
      assert seg[k].value == Options(c)[k];
      if seg[k].checked {
        assert Matches(seg[k], q);
      }
    }
  }

  /**
   * Reopening the editor after a custom Save and saving it untouched gives
   * back the saved entry: the saved categories are already in option order
   * and free of duplicates.
   */
  lemma CustomReopenUntouched(e: Entry, form: seq<Input>)
    requires e.Custom? && SameControls(form, CustomEditForm(e))
    ensures SavedCustom(SavedCustom(e, form), CustomEditForm(SavedCustom(e, form))) == SavedCustom(e, form)
  {
    var s := SavedCustom(e, form);
    var f := CustomEditForm(s);
    var r := SavedCustom(s, f);
    CustomEditSegments(s);
    forall c ensures Picks(r, c) == Picks(s, c) {
      SegmentQuery(e, form, c);
      SegmentControls(e, form, c);
      SegmentQuery(s, f, c);
      SegmentReopen(e, s, Segment(form, c), c);
    }
    CustomEqual(r, s);
  }

  // ----- Signature -----

  /** The toppings a signature editor offers: the entry's own, or the default list when it has none. */
  function Universe(e: Entry): (r: seq<string>)
    requires e.Signature?
    ensures r != []
    ensures e.toppings != [] ==> r == e.toppings
    ensures e.toppings == [] ==> r == DefaultToppings
  {
    if |e.toppings| > 0 then e.toppings else DefaultToppings
  }

  /** Every removed topping of a signature entry is one its editor offers. */
  predicate RemovedWithinUniverse(e: Entry)
    requires e.Signature?
  {
    forall v :: v in e.removedToppings ==> v in Universe(e)
  }

  /** The signature editor: one checkbox per offered topping, checked unless it was removed. */
  function SignatureEditForm(e: Entry): (r: seq<Input>)
    requires e.Signature?
    ensures |r| == |Universe(e)|
    ensures forall k :: 0 <= k < |r| ==>
      r[k].kind == Checkbox && r[k].name == "" && r[k].value == Universe(e)[k] &&
      (r[k].checked <==> Universe(e)[k] !in e.removedToppings)
  {
    var u := Universe(e);
    seq(|u|, k requires 0 <= k < |u| => Input(Checkbox, "", u[k], u[k] !in e.removedToppings))
  }

  /** Signature Save: the removed toppings become exactly the unchecked boxes; the toppings stay. */
  function SavedSignature(e: Entry, form: seq<Input>): (r: Entry)
    requires e.Signature?
    ensures r.Signature? && r.name == e.name && r.toppings == e.toppings && r.quantity == e.quantity
    ensures forall v :: v in r.removedToppings <==>
      exists k :: 0 <= k < |form| && form[k].kind == Checkbox && !form[k].checked && form[k].value == v
  {
    e.(removedToppings := Values(form, UncheckedBox))
  }

  /** A signature Save keeps the removed toppings within the offered universe. */
  lemma SignatureSaveWithinUniverse(e: Entry, form: seq<Input>)
    requires e.Signature? && SameControls(form, SignatureEditForm(e))
    ensures RemovedWithinUniverse(SavedSignature(e, form))
  {
    var r := SavedSignature(e, form);
    forall v | v in r.removedToppings ensures v in Universe(r) {
      var k :| 0 <= k < |form| && form[k].kind == Checkbox && !form[k].checked && form[k].value == v;
      assert SignatureEditForm(e)[k].value == Universe(e)[k];
    }
  }

  /** Unchecking a topping's box in the signature editor records it as removed; the toppings stay. */
  lemma SignatureUncheck(e: Entry, form: seq<Input>, k: nat)
    requires e.Signature? && SameControls(form, SignatureEditForm(e))
    requires k < |form| && !form[k].checked
    ensures form[k].value in SavedSignature(e, form).removedToppings
    ensures SavedSignature(e, form).toppings == e.toppings
  {
    assert form[k].kind == SignatureEditForm(e)[k].kind;
  }

  /**
   * Saving the signature editor untouched keeps exactly the removed toppings
   * the editor offers; for an entry whose removed toppings are within its
   * universe that is the same set as before.
   */
  lemma SignatureSaveUntouched(e: Entry)
    requires e.Signature?
    ensures forall v :: v in SavedSignature(e, SignatureEditForm(e)).removedToppings <==>
      v in Universe(e) && v in e.removedToppings
  {
    var u, form := Universe(e), SignatureEditForm(e);
    forall v ensures v in SavedSignature(e, form).removedToppings <==> v in u && v in e.removedToppings {
      if v in u && v in e.removedToppings {
        var k :| 0 <= k < |u| && u[k] == v;
        assert form[k].kind == Checkbox && !form[k].checked && form[k].value == v;
      }
    }
  }

  /** Reopening the signature editor and saving the same selections again changes nothing more. */
  lemma SignatureSaveIdempotent(e: Entry, form: seq<Input>)
    requires e.Signature? && SameControls(form, SignatureEditForm(e))
    ensures SameControls(form, SignatureEditForm(SavedSignature(e, form)))
    ensures SavedSignature(SavedSignature(e, form), form) == SavedSignature(e, form)
  {
  }
}
