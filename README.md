# Shopping-cart state machine of the ordering page

This project models the cart of a food-ordering page (`orders.js`). The page holds one list of cart entries. Each entry is a signature bowl or pita, a custom bowl or pita, or a drink. Click handlers read the page's forms and change that list:
- an "add to cart" button appends entries, after validation for custom items;
- the Remove button of a row deletes that entry;
- the Save button of an entry's inline editor overwrites some of that entry's fields;
- Cancel only re-renders.

After every change the drawer is re-rendered wholesale. It shows a count of the entries and one row per entry.

Modules:
- `Forms` (`forms.dfy`): the page's forms as values. A control is an `Input` with a kind, a `name`, a `value` and a checked state. A `Fieldset` has a legend and its controls. A `Form` has an id, the `data-custom` flag, its controls and its fieldsets. The handlers' selector queries over `input` controls become a `Query` evaluated by `Values` or `First`. The `fieldset` and `legend` lookups of the signature and drinks adds become the `fieldsets` and `legend` fields. The lookup of the form by id in custom validation is taken to return the submitted form. `Contains` is JavaScript's `String.prototype.includes`.
- `Entries` (`entries.dfy`): the `Entry` datatype, one constructor per variant, each with `quantity`. It also holds the five custom categories with their fixed option lists, and the entries each add builds.
- `Editing` (`editing.dfy`): the three inline editors as the forms `openEditForm` builds, and the entry each Save produces. `SameControls` says that a submitted editor is the built one after the user toggled some of its controls.
- `Orders` (`cart.dfy`): `ValidateCustom`, and the class `Cart`. `Cart` holds the `entries` list and the displayed `count` and `rows`. Its methods are the click handlers. `Valid()` is kept by every handler: the display shows the list, every quantity is 1, and every signature entry's removed toppings are among the toppings its editor offers.

The model follows orders.js in two places a reader might not expect:
- Toppings and category selections are ordered lists that may hold duplicates, not sets.
- A drink's size at add time is any checked checkbox value, not only "small" or "large".

## Model

| member | source | states |
|---|---|---|
| Forms.Values | orders.js:117-119 | a value is in the query result iff some matching control carries it; there are never more values than controls |
| Forms.ValuesAppend | orders.js:117-119 | querying controls laid end to end gives the results of each part, in document order |
| Forms.ValuesSingle | orders.js:117-119 | one control gives its value iff it matches the selector; with `ValuesAppend` this fixes the result: the values of the matching controls, one each, in document order |
| Forms.ValuesNone | orders.js:117-119 | a container with no matching control gives an empty result |
| Forms.First | orders.js:187 | the first matching control's value, absent exactly when no control matches; it is the head of the full query result |
| Forms.Contains | orders.js:27 | `includes` is true iff the part occurs at some position of the string |
| Entries.WithPicks | orders.js:240 | writing one category of a custom entry sets that category and leaves the other four, the name and the quantity unchanged |
| Entries.CustomEntry | orders.js:60-77 | a custom add builds a custom entry with quantity 1; it is named "Custom Bowl" iff the form id contains "Bowl", otherwise "Custom Pita"; each of the five categories holds exactly the values checked under its add-form name, and an unchecked category holds an empty list |
| Entries.Options | orders.js:204-210 | each custom category offers at least four options, with no option listed twice |
| Entries.SignatureEntry | orders.js:85-93 | one fieldset gives a signature entry named by its legend, holding the values of its checked boxes in document order, with no removed toppings and quantity 1 |
| Entries.SignatureEntries | orders.js:82-96 | one signature entry per fieldset, in fieldset order; each has the legend as name, the values of the checked boxes in document order as toppings, no removed toppings and quantity 1 |
| Entries.DrinkEntries | orders.js:99-114 | every entry a drinks add creates is a drink of quantity 1 whose name is the legend of some fieldset and whose size is checked in that fieldset |
| Entries.DrinkEntriesLength | orders.js:99-114 | a drinks add creates as many entries as there are checked sizes over all fieldsets |
| Entries.DrinkEntriesAt | orders.js:101-112 | the j-th checked size of the k-th fieldset is the entry right after those of earlier fieldsets, with that fieldset's legend, that size and quantity 1 (order by fieldset, then by size) |
| Entries.OneSignatureFieldset | orders.js:84-94 | one fieldset with two checked toppings adds exactly one signature entry with those two toppings and no removed ones |
| Entries.BothSizesChecked | orders.js:103-111 | a drink with both sizes checked adds two entries, small then large |
| Entries.Label | orders.js:130-142 | a row shows the entry's name; a drink's row adds its size in parentheses after the name |
| Editing.DrinkEditForm | orders.js:165-177 | the drink editor has one radio named "size" per offered size, small then large; a radio is selected iff it is the entry's size, so at most one is |
| Editing.SavedDrink | orders.js:186-188 | a drink Save leaves name and quantity alone; with no size selected, or an empty one, the entry is unchanged; otherwise the size becomes the first selected size |
| Editing.DrinkSaveSize | orders.js:165-188 | after a drink Save the size is the previous one or one of "small" and "large" |
| Editing.DrinkSaveUntouched | orders.js:165-188 | saving the drink editor without touching it leaves the entry unchanged |
| Editing.SavedCustom | orders.js:238-241 | a custom Save replaces every category wholesale with the values checked under its key; name and quantity stay |
| Editing.CategoryBoxes | orders.js:212-228 | a category's editor boxes are its fixed options in order, each named by the category's key and pre-checked iff the entry holds that option |
| Editing.CustomEditForm | orders.js:204-229 | the custom editor has 22 checkboxes, one per option of the five categories |
| Editing.CategoryBoxesControls | orders.js:212-228 | each category's editor checkbox carries the category's key and one of its fixed options, and is pre-checked iff the entry holds that option |
| Editing.CustomEditControls | orders.js:204-229 | every control of the custom editor named after a category carries one of that category's fixed options |
| Editing.CustomSaveWithinOptions | orders.js:204-241 | after a custom Save every category holds only values from its fixed option list; other values are dropped |
| Editing.CustomSaveUntouched | orders.js:212-241 | saving the custom editor untouched keeps in each category exactly the held values that are among its fixed options |
| Editing.CustomEditLayout | orders.js:204-229 | the custom editor's controls are the same for every custom entry; only their checked states differ |
| Editing.CustomReopenUntouched | orders.js:204-243 | after a custom Save, reopening the editor and saving it untouched gives back the same entry, because saved categories are in option order without duplicates |
| Editing.SegmentQuery | orders.js:212-240 | in a submitted custom editor, the boxes checked under one category's key are exactly those of that category's own block of boxes |
| Editing.SegmentReopen | orders.js:217-240 | the boxes rebuilt from what a category's block checked are that block again |
| Editing.CustomSaveIdempotent | orders.js:204-243 | the editor reopened after a custom Save offers the same controls, and saving the same selections again gives the same entry |
| Editing.Universe | orders.js:257-259 | the signature editor offers a non-empty list: the entry's toppings when it has any, the six defaults otherwise |
| Editing.SignatureEditForm | orders.js:261-271 | the signature editor has one unnamed checkbox per offered topping, in order, checked iff that topping was not removed |
| Editing.SavedSignature | orders.js:280-282 | a signature Save sets the removed toppings to exactly the values of the unchecked boxes; name, toppings and quantity stay |
| Editing.SignatureSaveWithinUniverse | orders.js:257-282 | after a signature Save every removed topping is one the editor offered: the entry's toppings, or the six defaults when it has none |
| Editing.SignatureUncheck | orders.js:261-282 | unchecking a topping's box and saving records that topping as removed and leaves the toppings unchanged |
| Editing.SignatureSaveUntouched | orders.js:257-282 | saving the signature editor untouched keeps exactly the removed toppings that are in the offered universe |
| Editing.SignatureSaveIdempotent | orders.js:257-282 | the editor reopened after a signature Save offers the same controls, and saving the same selections again gives the same entry |
| Orders.ValidateCustom | orders.js:46-57 | validation succeeds iff base, protein and dressing each have a checked value (spread and topping are not checked); on failure it names the first of them, in that order, with nothing checked |
| Orders.Rows | orders.js:126-150 | one row per entry, in order; row k shows entry k's label and acts on index k |
| Orders.Removed | orders.js:146 | removing index i leaves one entry fewer; entries before i keep their index, and later ones move down by one in the same order |
| Orders.RemovedMultiset | orders.js:146 | removal takes out exactly the entry at i and no other |
| Orders.Cart.constructor | orders.js:2 | the list starts empty; the empty display is assumed from the page markup |
| Orders.Cart.Render | orders.js:122-151 | after re-rendering, the count is the number of entries, not a sum of quantities; row k shows entry k's label and acts on index k |
| Orders.Cart.AddCustomItem | orders.js:60-79 | appends exactly one custom entry and leaves earlier entries unchanged |
| Orders.Cart.AddSignatureItem | orders.js:82-96 | appends the signature entries of the fieldsets, in order, after the unchanged earlier entries |
| Orders.Cart.AddDrinks | orders.js:99-114 | appends the drink entries of all checked sizes, in order, after the unchanged earlier entries |
| Orders.Cart.AddToCart | orders.js:21-43 | routing by form id and custom flag. A custom form that fails validation changes neither the list nor the display. Otherwise the list grows by exactly the entries of the chosen add, or not at all for an unrecognised form. The display is re-rendered and the cart invariant is kept |
| Orders.Cart.Remove | orders.js:145-148 | the list becomes the old list without entry `index`, and the display is re-rendered |
| Orders.Cart.SaveDrink | orders.js:186-190 | only entry `index` changes, to the drink Save result; the display is re-rendered |
| Orders.Cart.SaveCustom | orders.js:238-243 | only entry `index` changes, to the custom Save result; the display is re-rendered |
| Orders.Cart.SaveSignature | orders.js:280-284 | only entry `index` changes, to the signature Save result; removed toppings stay within the universe |
| Orders.Cart.Cancel | orders.js:191 | Cancel, on any of the three editors, changes no entry and the display ends as it was |

## Left out

- DOM querying, element creation, `innerHTML` markup and listener wiring (orders.js:5-9, 21-23, 127-150, 161-184, 212-236) are not modelled. Forms are `Input`/`Fieldset`/`Form` values, and the display is the `count` and `rows` fields.
- A `Form`'s controls and its fieldsets are given independently. The model does not require a fieldset's controls to be among the form's controls.
- Opening and closing the cart drawer (orders.js:12-18) is a styling toggle and not cart state.
- The `alert` (orders.js:52) is a browser side effect. `ValidateCustom` returns instead the name of the category the message would name.
- `validateCustom` looks its form up again by id (orders.js:47). The model assumes this finds the form whose button was clicked.
- `openEditForm` replaces a row's markup with the editor, including the `(xN)` heading and the capitalised option labels (orders.js:156-158, 173, 214). The model gives only the editor's controls (`DrinkEditForm`, `CustomEditForm`, `SignatureEditForm`). While an editor is open the rows are not changed.
- The Save handlers hold the entry object, not its index. The model saves by index. This is equivalent because every change to the list re-renders the drawer, which discards any open editor.
- Because the Save handlers hold the entry object, a stale index cannot arise for them. For Remove, the model requires `index < |entries|`, which holds for rows rendered from the current list.
- A fieldset without a `<legend>` (orders.js:85, 102) would throw in the page. The model gives every fieldset a legend.
- Orders.Cart.constructor: orders.js:2 sets only the list. The initial count of 0 and the empty row list come from the page markup, which is not part of this model, and the script does not re-render at load. The constructor assumes that markup, so `Valid()` holds from the start.
- JavaScript truthiness of the selected size (orders.js:188) is modelled as "present and not the empty string".
- The optional chaining `entry[category]?.includes` (orders.js:222) is not modelled: every custom entry has all five categories.
