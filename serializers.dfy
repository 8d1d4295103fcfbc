/**
 * The recipe serializer's write path: create a recipe with its nested tags
 * and ingredients, or update one, reconciling each relation by get-or-create
 * against the requesting user's own rows.
 */
module Serializers {
  import opened Wrappers
  import opened Tables
  import opened Fields

  type RecipeId = nat

  /** A table together with a recipe's set of attached row ids. */
  datatype Linked = Linked(table: Table, attached: set<RowId>)

  /**
   * The get-or-create helper for one relation: get or create a row per name
   * for `owner` and add its id to the attached set.
   */
  function Attach(t: Table, attached: set<RowId>, owner: UserId, names: seq<Name>): (r: Linked)
    ensures attached <= r.attached
  {
    var g := GetOrCreateAll(t, owner, names);
    Linked(g.table, attached + Elems(g.ids))
  }

  /**
   * One relation on update: absent leaves the relation alone; present (even
   * empty) clears it and runs the helper on the submitted names.
   */
  function Reconcile(t: Table, attached: set<RowId>, owner: UserId, names: Option<seq<Name>>): (r: Linked)
    ensures names.None? ==> r.table == t && r.attached == attached
  {
    match names
    case None => Linked(t, attached)
    case Some(ns) => Attach(t, {}, owner, ns)
  }

  /**
   * The helper keeps the table valid and only appends to it, keeps what was
   * attached, and attaches exactly `owner`'s rows for the submitted names.
   */
  lemma AttachAddsNamed(t: Table, attached: set<RowId>, owner: UserId, names: seq<Name>)
    requires t.Valid()
    ensures var r := Attach(t, attached, owner, names);
      r.table.Valid() && t.rows <= r.table.rows
      && r.attached == attached + NamedIds(r.table, owner, names)
      && forall name :: name in names ==> |Matching(r.table.rows, owner, name)| == 1
  {
    GetOrCreateAllFacts(t, owner, names);
    GetOrCreateAllExact(t, owner, names);
    GetOrCreateAllExactlyOne(t, owner, names);
  }

  /** The rows of a table that only grew still carry the ids they had. */
  lemma OwnedIdsGrow(t: Table, t': Table, owner: UserId)
    requires t.rows <= t'.rows
    ensures OwnedIds(t, owner) <= OwnedIds(t', owner)
  {
    forall id | id in OwnedIds(t, owner) ensures id in OwnedIds(t', owner) {
      var r :| r in t.rows && r.owner == owner && r.id == id;
      var i :| 0 <= i < |t.rows| && t.rows[i] == r;
      assert t'.rows[i] == r;
    }
  }

  /** If everything attached was `owner`'s, it still is after the helper runs for `owner`. */
  lemma AttachKeepsOwned(t: Table, attached: set<RowId>, owner: UserId, names: seq<Name>)
    requires t.Valid() && attached <= OwnedIds(t, owner)
    ensures var r := Attach(t, attached, owner, names);
      r.attached <= OwnedIds(r.table, owner)
  {
    var r := Attach(t, attached, owner, names);
    AttachAddsNamed(t, attached, owner, names);
    OwnedIdsGrow(t, r.table, owner);
  }

  /** Running the helper twice with the same list leaves the table and the set as running it once. */
  lemma AttachIdempotent(t: Table, attached: set<RowId>, owner: UserId, names: seq<Name>)
    requires t.Valid()
    ensures var r := Attach(t, attached, owner, names);
      Attach(r.table, r.attached, owner, names) == r
  {
    GetOrCreateAllIdempotent(t, owner, names);
  }

  /**
   * A present list replaces the relation: afterwards it holds exactly
   * `owner`'s rows for the submitted names, so an empty list empties it
   * whatever was attached before. The table stays valid and only grows.
   */
  lemma ReconcileExact(t: Table, attached: set<RowId>, owner: UserId, names: Option<seq<Name>>)
    requires t.Valid() && names.Some?
    ensures var r := Reconcile(t, attached, owner, names);
      r.table.Valid() && t.rows <= r.table.rows
      && r.attached == NamedIds(r.table, owner, names.value)
      && (names.value == [] ==> r.attached == {} && r.table == t)
  {
    AttachAddsNamed(t, {}, owner, names.value);
  }

  /**
   * Whatever the request holds, the table stays valid, only grows, and every
   * row added to it belongs to `owner`.
   */
  lemma ReconcileTables(t: Table, attached: set<RowId>, owner: UserId, names: Option<seq<Name>>)
    requires t.Valid()
    ensures var r := Reconcile(t, attached, owner, names);
      r.table.Valid() && t.rows <= r.table.rows
      && forall row :: row in r.table.rows && row.owner != owner ==> row in t.rows
  {
    if names.Some? {
      GetOrCreateAllGrows(t, owner, names.value);
      GetOrCreateAllOthersUntouched(t, owner, names.value);
    }
  }

  /** Reconciling for the recipe's owner keeps every attached id one of the owner's rows. */
  lemma ReconcileKeepsOwned(t: Table, attached: set<RowId>, owner: UserId, names: Option<seq<Name>>)
    requires t.Valid() && attached <= OwnedIds(t, owner)
    ensures var r := Reconcile(t, attached, owner, names);
      r.attached <= OwnedIds(r.table, owner)
  {
    if names.Some? {
      AttachKeepsOwned(t, {}, owner, names.value);
    }
  }

  /** Sending the same relation update twice gives the state of sending it once. */
  lemma ReconcileIdempotent(t: Table, attached: set<RowId>, owner: UserId, names: Option<seq<Name>>)
    requires t.Valid()
    ensures var r := Reconcile(t, attached, owner, names);
      Reconcile(r.table, r.attached, owner, names) == r
  {
    if names.Some? {
      GetOrCreateAllIdempotent(t, owner, names.value);
    }
  }

  /**
   * A stored recipe. The owner is fixed at creation: no serializer field
   * writes it.
   */
  class Recipe {
    const id: RecipeId
    const owner: UserId
    var title: string
    var timeMinutes: int
    var price: Decimal
    var link: string
    var description: string
    var steps: string
    var image: Option<string>
    var tags: set<RowId>
    var ingredients: set<RowId>

    /** The scalar attributes as one value. */
    function Values(): Scalars
      reads this
    {
      Scalars(title, timeMinutes, price, link, description, steps, image)
    }

    /** A row created with the given attributes and no relations. */
    constructor (id: RecipeId, owner: UserId, values: Scalars)
      ensures this.id == id && this.owner == owner
      ensures Values() == values && tags == {} && ingredients == {}
    {
      this.id := id;
      this.owner := owner;
      title := values.title;
      timeMinutes := values.timeMinutes;
      price := values.price;
      link := values.link;
      description := values.description;
      steps := values.steps;
      image := values.image;
      tags := {};
      ingredients := {};
    }

    /** setattr on one scalar attribute; the relations are untouched. */
    method SetAttr(a: Attr, v: Value)
      requires Fits(a, v)
      modifies this
      ensures Values() == Set(old(Values()), a, v)
      ensures tags == old(tags) && ingredients == old(ingredients)
    {
      match a
      case Title => title := v.text;
      case TimeMinutes => timeMinutes := v.number;
      case Price => price := v.amount;
      case Link => link := v.text;
      case Description => description := v.text;
      case Steps => steps := v.text;
      case Image => image := v.path;
    }
  }

  /** The Tag and Ingredient tables and the recipe id counter. */
  class Database {
    var tags: Table
    var ingredients: Table
    var nextRecipeId: RecipeId

    ghost predicate Valid()
      reads this
    {
      tags.Valid() && ingredients.Valid()
    }

    /** Every tag and ingredient attached to `r` is a row owned by `r`'s owner. */
    ghost predicate Owns(r: Recipe)
      reads this, r
    {
      r.tags <= OwnedIds(tags, r.owner) && r.ingredients <= OwnedIds(ingredients, r.owner)
    }

    constructor ()
      ensures Valid()
      ensures tags.rows == [] && ingredients.rows == []
    {
      tags := Table([], 1);
      ingredients := Table([], 1);
      nextRecipeId := 1;
    }

    /** For each tag name: get or create the user's tag, then add it to the recipe's tags. */
    method GetOrCreateTags(user: UserId, names: seq<Name>, recipe: Recipe)
      requires Valid()
      modifies this`tags, recipe`tags
      ensures Valid()
      ensures Linked(tags, recipe.tags) == Attach(old(tags), old(recipe.tags), user, names)
    {
      ghost var t0, a0 := tags, recipe.tags;
      ghost var ids: seq<RowId> := [];
      for i := 0 to |names|
        invariant GetOrCreateAll(t0, user, names[..i]) == GotAll(tags, ids)
        invariant recipe.tags == a0 + Elems(ids)
      {
        var got := GetOrCreate(tags, user, names[i]);
        tags := got.table;
        recipe.tags := recipe.tags + {got.id};
        assert names[..i + 1][..i] == names[..i];
        ElemsAppend(ids, got.id);
        ids := ids + [got.id];
      }
      assert names[..|names|] == names;
      AttachAddsNamed(t0, a0, user, names);
    }

    /** For each ingredient name: get or create the user's ingredient, then add it to the recipe's ingredients. */
    method GetOrCreateIngredients(user: UserId, names: seq<Name>, recipe: Recipe)
      requires Valid()
      modifies this`ingredients, recipe`ingredients
      ensures Valid()
      ensures Linked(ingredients, recipe.ingredients) == Attach(old(ingredients), old(recipe.ingredients), user, names)
    {
      ghost var t0, a0 := ingredients, recipe.ingredients;
      ghost var ids: seq<RowId> := [];
      for i := 0 to |names|
        invariant GetOrCreateAll(t0, user, names[..i]) == GotAll(ingredients, ids)
        invariant recipe.ingredients == a0 + Elems(ids)
      {
        var got := GetOrCreate(ingredients, user, names[i]);
        ingredients := got.table;
        recipe.ingredients := recipe.ingredients + {got.id};
        assert names[..i + 1][..i] == names[..i];
        ElemsAppend(ids, got.id);
        ids := ids + [got.id];
      }
      assert names[..|names|] == names;
      AttachAddsNamed(t0, a0, user, names);
    }

    /**
     * Create a recipe for `user` from validated data; a missing tag or
     * ingredient list counts as empty.
     */
    method Create(user: UserId, data: ValidatedData) returns (recipe: Recipe)
      requires Valid() && WellFormed(data.items)
      modifies this
      ensures Valid() && fresh(recipe) && Owns(recipe)
      ensures recipe.id == old(nextRecipeId) && nextRecipeId == old(nextRecipeId) + 1
      ensures recipe.owner == user && recipe.Values() == ApplyAll(Blank, data.items)
      ensures Linked(tags, recipe.tags) == Attach(old(tags), {}, user, data.tags.GetOr([]))
      ensures Linked(ingredients, recipe.ingredients)
              == Attach(old(ingredients), {}, user, data.ingredients.GetOr([]))
    {
      var tagNames := data.tags.GetOr([]);
      var ingredientNames := data.ingredients.GetOr([]);
      recipe := new Recipe(nextRecipeId, user, ApplyAll(Blank, data.items));
      nextRecipeId := nextRecipeId + 1;
      GetOrCreateTags(user, tagNames, recipe);
      GetOrCreateIngredients(user, ingredientNames, recipe);
      AttachKeepsOwned(old(tags), {}, user, tagNames);
      AttachKeepsOwned(old(ingredients), {}, user, ingredientNames);
    }

    /**
     * Update a recipe from validated data: ingredients, then tags, are
     * reconciled when present; then each supplied attribute is overwritten.
     */
    method Update(recipe: Recipe, user: UserId, data: ValidatedData)
      requires Valid() && WellFormed(data.items)
      modifies this`tags, this`ingredients, recipe
      ensures Valid() && nextRecipeId == old(nextRecipeId)
      ensures Linked(ingredients, recipe.ingredients)
              == Reconcile(old(ingredients), old(recipe.ingredients), user, data.ingredients)
      ensures Linked(tags, recipe.tags) == Reconcile(old(tags), old(recipe.tags), user, data.tags)
      ensures recipe.Values() == ApplyAll(old(recipe.Values()), data.items)
      ensures recipe.owner == user && old(Owns(recipe)) ==> Owns(recipe)
    {
      if data.ingredients.Some? {
        recipe.ingredients := {};
        GetOrCreateIngredients(user, data.ingredients.value, recipe);
      }
      if data.tags.Some? {
        recipe.tags := {};
        GetOrCreateTags(user, data.tags.value, recipe);
      }
      ghost var v0 := recipe.Values();
      ghost var tagsSet, ingredientsSet := recipe.tags, recipe.ingredients;
      for i := 0 to |data.items|
        modifies recipe
        invariant recipe.Values() == ApplyAll(v0, data.items[..i])
        invariant recipe.tags == tagsSet && recipe.ingredients == ingredientsSet
      {
        recipe.SetAttr(data.items[i].attr, data.items[i].value);
        assert data.items[..i + 1][..i] == data.items[..i];
      }
      assert data.items[..|data.items|] == data.items;
      if recipe.owner == user && old(Owns(recipe)) {
        ReconcileKeepsOwned(old(tags), old(recipe.tags), user, data.tags);
        ReconcileKeepsOwned(old(ingredients), old(recipe.ingredients), user, data.ingredients);
      }
    }
  }

  /**
   * A client of the contracts above: a recipe created with a title, a link and
   * the tag "Indian", then patched with a new title and the same tag. The link
   * and the owner are kept, and the user still has a single "Indian" tag row.
   */
  method PatchScenario(db: Database, user: UserId)
    requires db.Valid()
    modifies db
  {
    var link := Assignment(Link, Text("www.example.com/reciepe.pdf"));
    var recipe := db.Create(user, ValidatedData([Assignment(Title, Text("Sample Recipe title")), link],
                                                 Some(["Indian"]), None));
    ApplyAllResult(Blank, [Assignment(Title, Text("Sample Recipe title")), link]);
    var patch := [Assignment(Title, Text("New Recipe Title Update Test"))];
    ghost var created, tagsAfterCreate := recipe.Values(), db.tags;
    db.Update(recipe, user, ValidatedData(patch, Some(["Indian"]), None));
    ApplyAllResult(created, patch);
    AttachAddsNamed(tagsAfterCreate, {}, user, ["Indian"]);
    assert recipe.title == "New Recipe Title Update Test";
    assert recipe.link == "www.example.com/reciepe.pdf";
    assert recipe.owner == user;
    assert |Matching(db.tags.rows, user, "Indian")| == 1;
  }
}
