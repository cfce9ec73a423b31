/**
 * Cart entries and the entries each "add to cart" submission creates.
 * An entry is a tagged record: a signature dish, a custom bowl or pita, or a
 * drink. Every entry is created with quantity 1.
 */
module Entries {
  import opened Forms

  /** The five ingredient categories of a custom bowl or pita. */
  datatype Category = Base | Protein | Spreads | Toppings | Dressings

  /** The categories in the order the edit form lists them. */
  const Categories: seq<Category> := [Base, Protein, Spreads, Toppings, Dressings]

  /** The `name` of the category's checkboxes in the custom add form. */
  function AddFormName(c: Category): string {
    match c
    case Base => "base"
    case Protein => "protein"
    case Spreads => "spread"
    case Toppings => "topping"
    case Dressings => "dressing"
  }

  /** The category's key in an entry, also the `name` of its checkboxes in the edit form. */
  function Key(c: Category): string {
    match c
    case Base => "base"
    case Protein => "protein"
    case Spreads => "spreads"
    case Toppings => "toppings"
    case Dressings => "dressings"
  }

  lemma KeyInjective(c: Category, d: Category)
    ensures Key(c) == Key(d) ==> c == d
  {
  }

  /** The fixed options the edit form offers for each category. */
  function Options(c: Category): (r: seq<string>)
    ensures |r| >= 4
    ensures forall i, j :: 0 <= i < j < |r| ==> r[i] != r[j]
  {
    match c
    case Base => ["Brown Rice", "SuperGreens", "Lentils", "RightRice", "Pita"]
    case Protein => ["Grilled Chicken", "Falafel", "Braised Lamb", "Roasted Veggies"]
    case Spreads => ["Hummus", "Crazy Feta", "Roasted Red Pepper Hummus", "Tzatziki"]
    case Toppings => ["Pickled Onions", "Cabbage Slaw", "Avocado", "Kalamata Olives", "Tomato + Cucumber"]
    case Dressings => ["Greek Vinaigrette", "Lemon Herb Tahini", "Harissa", "Yogurt Dill"]
  }

  datatype Entry =
    | Signature(name: string, toppings: seq<string>, removedToppings: seq<string>, quantity: int)
    | Custom(name: string, base: seq<string>, protein: seq<string>, spreads: seq<string>,
             toppings: seq<string>, dressings: seq<string>, quantity: int)
    | Drink(name: string, size: string, quantity: int)

  /** `entry[Key(c)]` for a custom entry. */
  function Picks(e: Entry, c: Category): seq<string>
    requires e.Custom?
  {
    match c
    case Base => e.base
    case Protein => e.protein
    case Spreads => e.spreads
    case Toppings => e.toppings
    case Dressings => e.dressings
  }

  /** `entry[Key(c)] = values`: one category replaced, nothing else touched. */
  function WithPicks(e: Entry, c: Category, values: seq<string>): (r: Entry)
    requires e.Custom?
    ensures r.Custom? && r.name == e.name && r.quantity == e.quantity
    ensures Picks(r, c) == values
    ensures forall d :: d != c ==> Picks(r, d) == Picks(e, d)
  {
    match c
    case Base => e.(base := values)
    case Protein => e.(protein := values)
    case Spreads => e.(spreads := values)
    case Toppings => Custom(e.name, e.base, e.protein, e.spreads, values, e.dressings, e.quantity)
    case Dressings => e.(dressings := values)
  }

  /** Two custom entries that agree on name, quantity and every category are the same entry. */
  lemma CustomEqual(a: Entry, b: Entry)
    requires a.Custom? && b.Custom? && a.name == b.name && a.quantity == b.quantity
    requires forall c :: Picks(a, c) == Picks(b, c)
    ensures a == b
  {
    assert Picks(a, Base) == Picks(b, Base);
    assert Picks(a, Protein) == Picks(b, Protein);
    assert Picks(a, Spreads) == Picks(b, Spreads);
    assert Picks(a, Toppings) == Picks(b, Toppings);
    assert Picks(a, Dressings) == Picks(b, Dressings);
  }

  // ----- Custom add -----

  /** The entry a custom add form produces (what the cart's custom add pushes). */
  function CustomEntry(form: Form): (e: Entry)
    ensures e.Custom? && e.quantity == 1
    ensures e.name == "Custom Bowl" || e.name == "Custom Pita"
    ensures e.name == "Custom Bowl" <==> exists i :: OccursAt(form.id, "Bowl", i)
    ensures forall c :: Picks(e, c) == Values(form.inputs, CheckedNamed(AddFormName(c)))
  {
    Custom(if Contains(form.id, "Bowl") then "Custom Bowl" else "Custom Pita",
           Values(form.inputs, CheckedNamed("base")),
           Values(form.inputs, CheckedNamed("protein")),
           Values(form.inputs, CheckedNamed("spread")),
           Values(form.inputs, CheckedNamed("topping")),
           Values(form.inputs, CheckedNamed("dressing")),
           1)
  }

  // ----- Signature add -----

  /** The entry one signature fieldset produces. */
  function SignatureEntry(f: Fieldset): (r: Entry)
    ensures r.Signature? && r.name == f.legend && r.quantity == 1 && r.removedToppings == []
    ensures r.toppings == Values(f.inputs, CheckedBox)
  {
    Signature(f.legend, Values(f.inputs, CheckedBox), [], 1)
  }

  /** One signature entry per fieldset, in fieldset order. */
  function SignatureEntries(fs: seq<Fieldset>): (r: seq<Entry>)
    ensures |r| == |fs|
    ensures forall k :: 0 <= k < |fs| ==>
      r[k].Signature? && r[k].name == fs[k].legend && r[k].quantity == 1 &&
      r[k].removedToppings == [] && r[k].toppings == Values(fs[k].inputs, CheckedBox)
  {
    seq(|fs|, k requires 0 <= k < |fs| => SignatureEntry(fs[k]))
  }

  // ----- Drinks add -----

  /** The sizes checked in one drink fieldset. */
  function Sizes(f: Fieldset): seq<string> {
    Values(f.inputs, CheckedBox)
  }

  /** One drink entry per checked size of one fieldset, in document order. */
  function DrinksOf(f: Fieldset): seq<Entry> {
    var sizes := Sizes(f);
    seq(|sizes|, j requires 0 <= j < |sizes| => Drink(f.legend, sizes[j], 1))
  }

  /** The entries a drinks form produces: ordered by fieldset, then by size. */
  function DrinkEntries(fs: seq<Fieldset>): (r: seq<Entry>)
    ensures forall e :: e in r ==> (e.Drink? && e.quantity == 1 &&
      exists k :: 0 <= k < |fs| && fs[k].legend == e.name && e.size in Sizes(fs[k]))
    decreases |fs|
  {
    if fs == [] then []
    else
      var init := fs[..|fs| - 1];
      assert forall k :: 0 <= k < |init| ==> init[k] == fs[k];
      DrinkEntries(init) + DrinksOf(fs[|fs| - 1])
  }

  /** The total number of sizes checked over all fieldsets. */
  function CheckedSizes(fs: seq<Fieldset>): nat
    decreases |fs|
  {
    if fs == [] then 0 else CheckedSizes(fs[..|fs| - 1]) + |Sizes(fs[|fs| - 1])|
  }

  /** A drinks add grows the cart by the total number of checked sizes. */
  lemma {:induction false} DrinkEntriesLength(fs: seq<Fieldset>)
    ensures |DrinkEntries(fs)| == CheckedSizes(fs)
    decreases |fs|
  {
    if fs != [] {
      DrinkEntriesLength(fs[..|fs| - 1]);
    }
  }

  /**
   * The `j`-th size checked in the `k`-th fieldset becomes the entry right
   * after the sizes of all earlier fieldsets.
   */
  lemma {:induction false} DrinkEntriesAt(fs: seq<Fieldset>, k: nat, j: nat)
    requires k < |fs| && j < |Sizes(fs[k])|
    ensures CheckedSizes(fs[..k]) + j < |DrinkEntries(fs)|
    ensures DrinkEntries(fs)[CheckedSizes(fs[..k]) + j] == Drink(fs[k].legend, Sizes(fs[k])[j], 1)
    decreases |fs|
  {
    var n := |fs| - 1;
    var init := fs[..n];
    DrinkEntriesLength(init);
    if k == n {
      assert fs[..k] == init;
    } else {
      assert init[..k] == fs[..k];
      assert init[k] == fs[k];
      DrinkEntriesAt(init, k, j);
    }
  }

  /** A signature form with one fieldset and two checked toppings adds exactly one entry. */
  lemma OneSignatureFieldset(legend: string, t1: string, t2: string)
    ensures SignatureEntries([Fieldset(legend, [Input(Checkbox, "", t1, true), Input(Checkbox, "", t2, true)])])
      == [Signature(legend, [t1, t2], [], 1)]
  {
    var inputs := [Input(Checkbox, "", t1, true), Input(Checkbox, "", t2, true)];
    assert inputs[1..][1..] == [];
    assert Values(inputs[1..], CheckedBox) == [t2];
    assert Values(inputs, CheckedBox) == [t1, t2];
  }

  /** A drink with both sizes checked adds two entries, small first. */
  lemma BothSizesChecked(legend: string)
    ensures DrinkEntries([Fieldset(legend, [Input(Checkbox, "", "small", true), Input(Checkbox, "", "large", true)])])
      == [Drink(legend, "small", 1), Drink(legend, "large", 1)]
  {
    var inputs := [Input(Checkbox, "", "small", true), Input(Checkbox, "", "large", true)];
    assert inputs[1..][1..] == [];
    var fs := [Fieldset(legend, inputs)];
    assert fs[..0] == [];
  }

  // ----- Display -----

  /** The text a cart row shows: the name, followed by the size in parentheses for a drink. */
  function Label(e: Entry): (s: string)
    ensures !e.Drink? ==> s == e.name
    ensures e.Drink? ==> (|s| == |e.name| + |e.size| + 3 && s[..|e.name|] == e.name &&
      s[|e.name|..|e.name| + 2] == " (" && s[|e.name| + 2..|s| - 1] == e.size && s[|s| - 1] == ')')
  {
    match e
    case Drink(name, size, _) => name + " (" + size + ")"
    case _ => e.name
  }
}
