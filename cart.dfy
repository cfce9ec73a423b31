/**
 * The shopping cart: the ordered list of entries, the count and rows the
 * cart drawer displays, and the handlers that add, remove and edit entries.
 * Every handler that changes the list ends by re-rendering the display, so
 * between handlers the display always shows the list: one row per entry, in
 * order, and a count equal to the number of entries.
 */
module Orders {
  import opened Forms
  import opened Entries
  import opened Editing

  /** The add-form names of the categories a custom bowl or pita must have. */
  const RequiredFields: seq<string> := ["base", "protein", "dressing"]

  /** Every required category of the custom add form has at least one checked value. */
  predicate CustomComplete(form: Form) {
    forall name :: name in RequiredFields ==> Values(form.inputs, CheckedNamed(name)) != []
  }

  /**
   * Custom-form validation: succeeds iff base, protein and dressing each have
   * a checked value; on failure `missing` is the first category (in that
   * order) with none, the one the user is told to select.
   */
  method ValidateCustom(form: Form) returns (ok: bool, missing: string)
    ensures ok <==> CustomComplete(form)
    ensures !ok ==> exists k :: (0 <= k < |RequiredFields| && RequiredFields[k] == missing &&
      Values(form.inputs, CheckedNamed(missing)) == [] &&
      forall j :: 0 <= j < k ==> Values(form.inputs, CheckedNamed(RequiredFields[j])) != [])
  {
    for i := 0 to |RequiredFields|
      invariant forall j :: 0 <= j < i ==> Values(form.inputs, CheckedNamed(RequiredFields[j])) != []
    {
      var checked := Values(form.inputs, CheckedNamed(RequiredFields[i]));
      if |checked| == 0 {
        return false, RequiredFields[i];
      }
    }
    return true, "";
  }

  /** The add dispatch sends forms whose id mentions "Bowl" or "Pita" to the food adds. */
  predicate IsFoodForm(id: string) {
    Contains(id, "Bowl") || Contains(id, "Pita")
  }

  /** One rendered cart row: the entry's label and the index its Edit and Remove buttons act on. */
  datatype Row = Row(text: string, index: nat)

  /** The rows the cart drawer shows for a list of entries. */
  function Rows(es: seq<Entry>): (r: seq<Row>)
    ensures |r| == |es|
    ensures forall i :: 0 <= i < |es| ==> r[i].index == i && r[i].text == Label(es[i])
  {
    seq(|es|, i requires 0 <= i < |es| => Row(Label(es[i]), i))
  }

  /** The list without its `i`-th entry: the others keep their order and shift down past `i`. */
  function Removed(es: seq<Entry>, i: nat): (r: seq<Entry>)
    requires i < |es|
    ensures |r| == |es| - 1
    ensures forall k :: 0 <= k < |r| ==> r[k] == es[if k < i then k else k + 1]
  {
    es[..i] + es[i + 1..]
  }

  /** Removing an entry takes exactly that entry out and nothing else. */
  lemma RemovedMultiset(es: seq<Entry>, i: nat)
    requires i < |es|
    ensures multiset(Removed(es, i)) + multiset{es[i]} == multiset(es)
  {
    assert es == es[..i] + [es[i]] + es[i + 1..];
  }

  /** What holds of every entry in the cart: quantity 1, and a signature's removed toppings are among those offered. */
  predicate WellFormed(e: Entry) {
    e.quantity == 1 && (e.Signature? ==> RemovedWithinUniverse(e))
  }

  /** Overwriting one entry with a well-formed one keeps every entry well-formed. */
  lemma WellFormedUpdate(es: seq<Entry>, i: nat, x: Entry)
    requires i < |es| && WellFormed(x)
    requires forall e :: e in es ==> WellFormed(e)
    ensures forall e :: e in es[i := x] ==> WellFormed(e)
  {
    forall e | e in es[i := x] ensures WellFormed(e) {
      var k :| 0 <= k < |es| && es[i := x][k] == e;
      if k != i {
        assert es[k] in es;
      }
    }
  }

  class Cart {
    /** The cart's entries, in the order they were added. */
    var entries: seq<Entry>
    /** The displayed entry count. */
    var count: nat
    /** The displayed rows. */
    var rows: seq<Row>

    ghost predicate Valid()
      reads this
    {
      count == |entries| && rows == Rows(entries) &&
      forall e :: e in entries ==> WellFormed(e)
    }

    /**
     * The page starts with an empty list. The drawer's initial count of 0 and
     * its empty row list come from the page markup, not from the script.
     */
    constructor ()
      ensures Valid() && entries == []
    {
      entries := [];
      count := 0;
      rows := [];
    }

    /** Re-render: clear the rows, show the count, then append one row per entry. */
    method Render()
      modifies this`count, this`rows
      ensures count == |entries| && rows == Rows(entries)
    {
      rows := [];
      count := |entries|;
      for i := 0 to |entries|
        invariant count == |entries| && |rows| == i
        invariant forall k :: 0 <= k < i ==> rows[k] == Row(Label(entries[k]), k)
      {
        rows := rows + [Row(Label(entries[i]), i)];
      }
      assert forall k :: 0 <= k < |entries| ==> rows[k] == Rows(entries)[k];
    }

    /** Append the one entry a custom form describes. */
    method AddCustomItem(form: Form)
      modifies this`entries
      ensures entries == old(entries) + [CustomEntry(form)]
    {
      var name := if Contains(form.id, "Bowl") then "Custom Bowl" else "Custom Pita";
      var base := Values(form.inputs, CheckedNamed("base"));
      var protein := Values(form.inputs, CheckedNamed("protein"));
      var spreads := Values(form.inputs, CheckedNamed("spread"));
      var toppings := Values(form.inputs, CheckedNamed("topping"));
      var dressings := Values(form.inputs, CheckedNamed("dressing"));
      entries := entries + [Custom(name, base, protein, spreads, toppings, dressings, 1)];
    }

    /** Append one signature entry per fieldset. */
    method AddSignatureItem(form: Form)
      modifies this`entries
      ensures entries == old(entries) + SignatureEntries(form.fieldsets)
    {
      var fieldsets := form.fieldsets;
      for i := 0 to |fieldsets|
        invariant entries == old(entries) + SignatureEntries(fieldsets[..i])
      {
        var fieldset := fieldsets[i];
        var toppings := Values(fieldset.inputs, CheckedBox);
        entries := entries + [Signature(fieldset.legend, toppings, [], 1)];
        assert SignatureEntries(fieldsets[..i + 1]) == SignatureEntries(fieldsets[..i]) + [SignatureEntry(fieldset)];
      }
      assert fieldsets[..|fieldsets|] == fieldsets;
    }

    /** Append one drink entry per checked size of every fieldset. */
    method AddDrinks(form: Form)
      modifies this`entries
      ensures entries == old(entries) + DrinkEntries(form.fieldsets)
    {
      var fieldsets := form.fieldsets;
      for i := 0 to |fieldsets|
        invariant entries == old(entries) + DrinkEntries(fieldsets[..i])
      {
        var fieldset := fieldsets[i];
        var sizes := Values(fieldset.inputs, CheckedBox);
        ghost var before := entries;
        for j := 0 to |sizes|
          invariant entries == before + DrinksOf(fieldset)[..j]
        {
          entries := entries + [Drink(fieldset.legend, sizes[j], 1)];
          assert DrinksOf(fieldset)[..j + 1] == DrinksOf(fieldset)[..j] + [Drink(fieldset.legend, sizes[j], 1)];
        }
        assert fieldsets[..i + 1][..i] == fieldsets[..i];
        assert DrinksOf(fieldset)[..|sizes|] == DrinksOf(fieldset);
      }
      assert fieldsets[..|fieldsets|] == fieldsets;
    }

    /**
     * The "add to cart" click: route the form to the custom, signature or
     * drinks add, then re-render. A custom form that fails validation
     * returns before anything changes, the display included.
     */
    method AddToCart(form: Form)
      requires Valid()
      modifies this
      ensures Valid()
      ensures IsFoodForm(form.id) && form.custom && !CustomComplete(form) ==>
        entries == old(entries) && count == old(count) && rows == old(rows)
      ensures IsFoodForm(form.id) && form.custom && CustomComplete(form) ==>
        entries == old(entries) + [CustomEntry(form)]
      ensures IsFoodForm(form.id) && !form.custom ==>
        entries == old(entries) + SignatureEntries(form.fieldsets)
      ensures !IsFoodForm(form.id) && form.id == "drinksForm" ==>
        entries == old(entries) + DrinkEntries(form.fieldsets)
      ensures !IsFoodForm(form.id) && form.id != "drinksForm" ==> entries == old(entries)
    {
      if Contains(form.id, "Bowl") || Contains(form.id, "Pita") {
        if form.custom {
          var ok, _ := ValidateCustom(form);
          if !ok {
            return;
          }
          AddCustomItem(form);
        } else {
          AddSignatureItem(form);
        }
      } else if form.id == "drinksForm" {
        AddDrinks(form);
      }
      Render();
    }

    /** The Remove button of row `index`: delete that entry, then re-render. */
    method Remove(index: nat)
      requires Valid() && index < |entries|
      modifies this
      ensures Valid()
      ensures entries == Removed(old(entries), index)
    {
      ghost var es := entries;
      entries := entries[..index] + entries[index + 1..];
      assert forall k :: 0 <= k < |entries| ==> entries[k] in es;
      Render();
    }

    /** Save in a drink's editor: take the selected size if there is one, then re-render. */
    method SaveDrink(index: nat, form: seq<Input>)
      requires Valid() && index < |entries| && entries[index].Drink?
      requires SameControls(form, DrinkEditForm(entries[index]))
      modifies this
      ensures Valid()
      ensures entries == old(entries)[index := SavedDrink(old(entries)[index], form)]
    {
      var entry := entries[index];
      var newSize := First(form, CheckedNamed("size"));
      if newSize.Some? && newSize.value != "" {
        assert entry in entries;
        WellFormedUpdate(entries, index, entry.(size := newSize.value));
        entries := entries[index := entry.(size := newSize.value)];
      }
      Render();
    }

    /** Save in a custom entry's editor: overwrite the entry's categories one after another, then re-render. */
    method SaveCustom(index: nat, form: seq<Input>)
      requires Valid() && index < |entries| && entries[index].Custom?
      requires SameControls(form, CustomEditForm(entries[index]))
      modifies this
      ensures Valid()
      ensures entries == old(entries)[index := SavedCustom(old(entries)[index], form)]
    {
      var entry := entries[index];
      for i := 0 to |Categories|
        invariant entry.Custom? && entry.name == old(entries)[index].name
        invariant entry.quantity == old(entries)[index].quantity
        invariant forall j :: 0 <= j < i ==>
          Picks(entry, Categories[j]) == Values(form, CheckedNamed(Key(Categories[j])))
      {
        var category := Categories[i];
        entry := WithPicks(entry, category, Values(form, CheckedNamed(Key(category))));
      }
      SavedCustomByCategories(old(entries)[index], form, entry);
      assert old(entries)[index] in old(entries);
      WellFormedUpdate(entries, index, entry);
      entries := entries[index := entry];
      Render();
    }

    /** Save in a signature entry's editor: the unchecked toppings become the removed ones, then re-render. */
    method SaveSignature(index: nat, form: seq<Input>)
      requires Valid() && index < |entries| && entries[index].Signature?
      requires SameControls(form, SignatureEditForm(entries[index]))
      modifies this
      ensures Valid()
      ensures entries == old(entries)[index := SavedSignature(old(entries)[index], form)]
    {
      assert entries[index] in entries;
      SignatureSaveWithinUniverse(entries[index], form);
      WellFormedUpdate(entries, index, SavedSignature(entries[index], form));
      var newRemoved := Values(form, UncheckedBox);
      entries := entries[index := entries[index].(removedToppings := newRemoved)];
      Render();
    }

    /** Cancel in any editor: only re-render, which shows exactly what was shown before editing. */
    method Cancel()
      requires Valid()
      modifies this
      ensures Valid()
      ensures entries == old(entries) && count == old(count) && rows == old(rows)
    {
      Render();
    }
  }
}
