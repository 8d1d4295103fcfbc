# Recipe relation reconciler

A Dafny model of the write path of the recipe API's `RecipeSerializer`
(`app/recipe/serializers.py`): how a recipe is created or updated together
with its nested tags and ingredients.

- Tags and ingredients are rows (id, owning user, name) in two tables. The
  serializer's helpers run the tables' get-or-create query on the key
  (requesting user, name) for each submitted name, in order, and add each row
  to the recipe's relation set.
- `create` treats a missing tag or ingredient list as empty, creates the
  recipe from the remaining fields and attaches.
- `update` handles each relation on its own: a list that is present, even an
  empty one, clears the relation and re-attaches; an absent list leaves the
  relation alone. It then overwrites the supplied scalar fields one by one.
- The recipe's owner is not a serializer field, so no request changes it.

Layout:

- `wrappers.dfy`: module `Wrappers`, the `Option` type for absent fields.
- `tables.dfy`: module `Tables`. A Tag or Ingredient table is a value: rows
  in insertion order plus an auto-increment counter. `Valid()` says ids are
  fresh and increasing and that (owner, name) is unique. `GetOrCreate` is the
  query and `GetOrCreateAll` runs it over a list. The lemmas prove what a run
  over a list leaves behind.
- `fields.dfy`: module `Fields`. It holds the scalar attributes, the field
  lists of the two serializers, field filtering (`Validate`), and `ApplyAll`,
  which specifies the `setattr` loop.
- `serializers.dfy`: module `Serializers`. `Attach` specifies the helpers and
  `Reconcile` specifies one relation on update; the lemmas about both follow.
  Class `Recipe` holds the recipe's fields and relation sets. Class `Database`
  holds both tables, and its methods `GetOrCreateTags`,
  `GetOrCreateIngredients`, `Create` and `Update` are the serializer's
  methods, each proved against those functions. `PatchScenario` is a worked
  client of these contracts, following the partial-update test in
  `app/recipe/tests/test_recipe_api.py`: a recipe created with a title, a link
  and the tag "Indian", then patched with a new title and the same tag, keeps
  its link and owner, and its user still has a single "Indian" tag row.

## Model

| member | source | states |
|---|---|---|
| `Tables.Lookup` | app/recipe/serializers.py:49-52 | the lookup half of get-or-create finds a row only among the requesting user's rows with that name, and returns nothing exactly when no such row exists |
| `Tables.GetOrCreate` | app/recipe/serializers.py:49-52 | afterwards a row (id, user, name) exists; a row is created exactly when none existed; an existing row is reused and the table is left unchanged; a created row has a fresh id and is the only row added |
| `Tables.GetOrCreateAll` | app/recipe/serializers.py:48-52 | the helpers' loop: one get-or-create per submitted name, left to right, threading the table through, giving back one id per name |
| `Tables.GetOrCreateKeepsValid` | app/recipe/serializers.py:49-52 | one get-or-create keeps ids fresh and (owner, name) unique, only appends, and appends only rows of the requesting user |
| `Tables.GetOrCreateAllGrows` | app/recipe/serializers.py:48-52 | a run over a list keeps the table valid, never removes or changes a row, and every added row belongs to the requesting user |
| `Tables.GetOrCreateAllRows` | app/recipe/serializers.py:48-53 | for every position k of the submitted list, the row given back for it is (ids[k], user, names[k]) and is in the table |
| `Tables.GetOrCreateAllOthersUntouched` | app/recipe/serializers.py:47-52 | every row of another user in the new table was already in the old one |
| `Tables.GetOrCreateAllExact` | app/recipe/serializers.py:45-53 | the ids given back are exactly the ids of the user's rows whose name was submitted |
| `Tables.GetOrCreateAllExactlyOne` | app/recipe/serializers.py:45-53 | afterwards each submitted name has exactly one row for the user: reused, never duplicated |
| `Tables.GetOrCreateAllPresent` | app/recipe/serializers.py:49-52 | when every name already has a row for the user, a run inserts nothing and gives back those rows' ids |
| `Tables.GetOrCreateAllIdempotent` | app/recipe/serializers.py:45-53 | a second run with the same list gives the same table and the same ids as the first |
| `Fields.FieldList` | app/recipe/serializers.py:34-104 | both serializers declare id, tags and ingredients; the list serializer's scalar fields are title, time, price and link, and the detail serializer (lines 96-104) adds description, steps and image |
| `Fields.WritableAttrs` | app/recipe/serializers.py:34-104 | the list serializer writes title, time, price and link only; the detail serializer adds description, steps and image; no serializer writes the id |
| `Fields.Get` | app/recipe/serializers.py:89-90 | reading an attribute gives a value of that attribute's kind |
| `Fields.ApplyAll` | app/recipe/serializers.py:89-90 | the `setattr` loop over the validated data: an attribute no entry supplies keeps its value, and the last entry's attribute ends with that entry's value |
| `Fields.Set` | app/recipe/serializers.py:89-90 | `setattr` changes the named attribute to the value and leaves every other attribute as it was |
| `Fields.ApplyAllResult` | app/recipe/serializers.py:89-90 | after the assignment loop every supplied attribute holds its supplied value and every attribute not supplied keeps its old value |
| `Fields.ApplyAllIdempotent` | app/recipe/serializers.py:89-90 | applying the same validated data twice gives the same scalars as applying it once |
| `Fields.WritableItems` | app/recipe/serializers.py:34-104 | an entry is kept exactly when its attribute is a declared, non-read-only field of the serializer |
| `Fields.Validate` | app/recipe/serializers.py:29-43 | validated data keeps exactly the writable scalar entries and passes on the tag and ingredient lists as sent; it has no owner or id component |
| `Fields.WritableItemsWellFormed` | app/recipe/serializers.py:34-104 | filtering keeps validated data a dictionary: no attribute twice and every value of its attribute's kind |
| `Serializers.Attach` | app/recipe/serializers.py:45-53 | the helper only adds to the relation set: everything attached before stays attached |
| `Serializers.AttachAddsNamed` | app/recipe/serializers.py:45-53 | the helper keeps the table valid and only growing, and the new set is the old set plus exactly the user's rows for the submitted names, one row per name |
| `Serializers.AttachKeepsOwned` | app/recipe/serializers.py:47-53 | if every attached row was the user's, every attached row still is |
| `Serializers.AttachIdempotent` | app/recipe/serializers.py:45-53 | running the helper twice with the same list leaves the table and the relation set as running it once |
| `Serializers.Reconcile` | app/recipe/serializers.py:79-87 | an absent list leaves both the table and the relation set untouched |
| `Serializers.ReconcileExact` | app/recipe/serializers.py:79-87 | a present list makes the set exactly the user's rows for the submitted names; an empty list empties the set whatever was attached and adds no row |
| `Serializers.ReconcileTables` | app/recipe/serializers.py:79-87 | clearing detaches but never deletes: the table only grows, stays valid, and gains only rows of the requesting user |
| `Serializers.ReconcileKeepsOwned` | app/recipe/serializers.py:79-87 | reconciling for the recipe's owner keeps every attached id one of the owner's rows |
| `Serializers.ReconcileIdempotent` | app/recipe/serializers.py:79-87 | sending the same relation update twice gives the same table and set as sending it once |
| `Serializers.Recipe.constructor` | app/recipe/serializers.py:71 | a new recipe has the given owner and attributes and no tags or ingredients |
| `Serializers.Recipe.SetAttr` | app/recipe/serializers.py:89-90 | one `setattr` changes exactly the named scalar attribute and not the relations |
| `Serializers.Database.GetOrCreateTags` | app/recipe/serializers.py:45-53 | the loop leaves the tag table and the recipe's tag set as `Attach` specifies, and the tables valid |
| `Serializers.Database.GetOrCreateIngredients` | app/recipe/serializers.py:55-64 | the same for the ingredient table and the recipe's ingredient set |
| `Serializers.Database.Create` | app/recipe/serializers.py:66-74 | a fresh recipe owned by the user, holding the supplied attributes, with its tag and ingredient sets made by `Attach` from an empty set, a missing list counting as empty; every attached row is the user's |
| `Serializers.Database.Update` | app/recipe/serializers.py:76-93 | ingredients, then tags, are reconciled as `Reconcile` specifies; the scalars become the old scalars with the supplied entries applied; the owner and the recipe id counter do not change; for the recipe's owner, every attached row stays the owner's |

## Left out

- HTTP, authentication, routing, status codes and the views. This includes
  the owner-scoped recipe lookup and the "assigned only" and "filter by id"
  list queries. The view that calls `update` is what makes the requesting user
  the recipe's owner, so `Serializers.Database.Update` states its ownership
  guarantee only for that case.
- The database itself: transactions, `instance.save()` (a no-op on the
  in-memory state), and concurrent updates of one recipe.
- `MultipleObjectsReturned` from pre-existing duplicate rows: `Table.Valid()`
  assumes (owner, name) is unique, and get-or-create keeps it unique.
- Field validation by the framework: type conversion, required fields and the
  400 response. Validated data is taken to be a dictionary of well-typed
  values (`WellFormed`). `Fields.Validate` models only filtering by the
  field lists.
- Model defaults: `core/models.py` is not part of this model. A recipe created
  without link, description, steps or image gets the blank values in
  `Fields.Blank`.
- Prices are fixed-point decimals stored as passed; no rounding or digit
  limits are modelled.
- Image upload (`RecipeImageSerializer`), file naming and image validation:
  file storage and a library validator. The image path is a plain optional
  string attribute.
- Email normalisation and the `calc` helpers: their code is not part of this
  model.
- A nested tag or ingredient descriptor is modelled as its name alone: the
  nested serializers' id is an auto-assigned primary key and is not written.
