/**
 * The recipe's own (scalar) attributes, the field lists of the two recipe
 * serializers, and the assignment loop that writes validated values onto a
 * recipe.
 */
module Fields {
  import opened Wrappers
  import opened Tables

  /** A price as a fixed-point decimal, coefficient * 10^-exponent, stored as given. */
  datatype Decimal = Decimal(coefficient: int, exponent: nat)

  /** The recipe attributes a serializer can write. */
  datatype Attr = Title | TimeMinutes | Price | Link | Description | Steps | Image

  /** A serializer field: the read-only id, a scalar attribute, or a nested relation. */
  datatype Field = Id | Scalar(attr: Attr) | Tags | Ingredients

  /** The two serializers that accept recipe data. */
  datatype Serializer = RecipeSerializer | RecipeDetailSerializer

  /** The declared field list of each serializer; the detail serializer extends the list one. */
  function FieldList(s: Serializer): (fields: seq<Field>)
    ensures Id in fields && Tags in fields && Ingredients in fields
    ensures forall a :: Scalar(a) in fields <==>
      a in {Title, TimeMinutes, Price, Link} || (s == RecipeDetailSerializer && a in {Description, Steps, Image})
  {
    var base := [Id, Scalar(Title), Scalar(TimeMinutes), Scalar(Price), Scalar(Link), Tags, Ingredients];
    match s
    case RecipeSerializer => base
    case RecipeDetailSerializer => base + [Scalar(Description), Scalar(Steps), Scalar(Image)]
  }

  /** Both serializers declare `id` read-only. */
  const ReadOnlyFields: seq<Field> := [Id]

  /** A field the serializer accepts from a request. */
  predicate Writable(s: Serializer, f: Field) {
    f in FieldList(s) && f !in ReadOnlyFields
  }

  /** A value after field validation. */
  datatype Value = Text(text: string) | Number(number: int) | Amount(amount: Decimal) | File(path: Option<string>)

  /** The kind of value each attribute holds. */
  predicate Fits(a: Attr, v: Value) {
    match a
    case Title | Link | Description | Steps => v.Text?
    case TimeMinutes => v.Number?
    case Price => v.Amount?
    case Image => v.File?
  }

  /** The scalar state of a recipe. */
  datatype Scalars = Scalars(title: string, timeMinutes: int, price: Decimal, link: string,
                             description: string, steps: string, image: Option<string>)

  /** The values a new recipe holds for attributes its request leaves out. */
  const Blank := Scalars("", 0, Decimal(0, 0), "", "", "", None)

  /** getattr: the value of one attribute. */
  function Get(s: Scalars, a: Attr): (v: Value)
    ensures Fits(a, v)
  {
    match a
    case Title => Text(s.title)
    case TimeMinutes => Number(s.timeMinutes)
    case Price => Amount(s.price)
    case Link => Text(s.link)
    case Description => Text(s.description)
    case Steps => Text(s.steps)
    case Image => File(s.image)
  }

  /** setattr: overwrite one attribute; every other attribute keeps its value. */
  function Set(s: Scalars, a: Attr, v: Value): (r: Scalars)
    requires Fits(a, v)
    ensures forall b :: Get(r, b) == if b == a then v else Get(s, b)
  {
    match a
    case Title => s.(title := v.text)
    case TimeMinutes => s.(timeMinutes := v.number)
    case Price => s.(price := v.amount)
    case Link => s.(link := v.text)
    case Description => s.(description := v.text)
    case Steps => s.(steps := v.text)
    case Image => s.(image := v.path)
  }

  /** One entry of the validated data: an attribute and its new value. */
  datatype Assignment = Assignment(attr: Attr, value: Value)

  /** Every value fits its attribute. */
  predicate AllFit(items: seq<Assignment>) {
    forall i :: 0 <= i < |items| ==> Fits(items[i].attr, items[i].value)
  }

  /** Validated data as the serializer sees it: a dictionary, so no attribute twice, each value of its kind. */
  predicate WellFormed(items: seq<Assignment>) {
    AllFit(items) && forall i, j :: 0 <= i < j < |items| ==> items[i].attr != items[j].attr
  }

  /** Some entry of `items` writes attribute `a`. */
  predicate Supplies(items: seq<Assignment>, a: Attr) {
    exists k :: 0 <= k < |items| && items[k].attr == a
  }

  /** The effect of the setattr loop: the entries applied in order. */
  function ApplyAll(s: Scalars, items: seq<Assignment>): (r: Scalars)
    requires AllFit(items)
    ensures forall a :: !Supplies(items, a) ==> Get(r, a) == Get(s, a)
    ensures items != [] ==> Get(r, items[|items| - 1].attr) == items[|items| - 1].value
    decreases |items|
  {
    if items == [] then s
    else
      var last := items[|items| - 1];
      Set(ApplyAll(s, items[..|items| - 1]), last.attr, last.value)
  }

  /** Two scalar states that agree on every attribute are equal. */
  lemma ScalarsEqual(s: Scalars, s': Scalars)
    requires forall a :: Get(s, a) == Get(s', a)
    ensures s == s'
  {
    assert Get(s, Title) == Get(s', Title) && Get(s, TimeMinutes) == Get(s', TimeMinutes);
    assert Get(s, Price) == Get(s', Price) && Get(s, Link) == Get(s', Link);
    assert Get(s, Description) == Get(s', Description) && Get(s, Steps) == Get(s', Steps);
    assert Get(s, Image) == Get(s', Image);
  }

  /**
   * Applying validated data overwrites exactly the supplied attributes, each
   * with its supplied value, and leaves every other attribute as it was.
   */
  lemma {:induction false} ApplyAllResult(s: Scalars, items: seq<Assignment>)
    requires WellFormed(items)
    ensures forall k :: 0 <= k < |items| ==> Get(ApplyAll(s, items), items[k].attr) == items[k].value
    ensures forall a :: !Supplies(items, a) ==> Get(ApplyAll(s, items), a) == Get(s, a)
  {
    if items != [] {
      var n := |items| - 1;
      var init := items[..n];
      assert WellFormed(init);
      ApplyAllResult(s, init);
      forall a | !Supplies(items, a) ensures Get(ApplyAll(s, items), a) == Get(s, a) {
        assert items[n].attr != a;
        assert !Supplies(init, a);
      }
      forall k | 0 <= k < n ensures Get(ApplyAll(s, items), items[k].attr) == items[k].value {
        assert init[k] == items[k];
      }
    }
  }

  /** Applying the same validated data twice gives the state of applying it once. */
  lemma ApplyAllIdempotent(s: Scalars, items: seq<Assignment>)
    requires WellFormed(items)
    ensures ApplyAll(ApplyAll(s, items), items) == ApplyAll(s, items)
  {
    var once := ApplyAll(s, items);
    ApplyAllResult(s, items);
    ApplyAllResult(once, items);
    forall a ensures Get(ApplyAll(once, items), a) == Get(once, a) {
      if Supplies(items, a) {
        var k :| 0 <= k < |items| && items[k].attr == a;
      }
    }
    ScalarsEqual(ApplyAll(once, items), once);
  }

  /**
   * A request as submitted: scalar entries, the optional nested lists, and
   * the keys no recipe serializer writes (an owner, an id).
   */
  datatype Payload = Payload(items: seq<Assignment>, tags: Option<seq<Name>>, ingredients: Option<seq<Name>>,
                             user: Option<UserId>, id: Option<nat>)

  /** What reaches `create` and `update`: writable scalar entries and the nested lists. */
  datatype ValidatedData = ValidatedData(items: seq<Assignment>, tags: Option<seq<Name>>, ingredients: Option<seq<Name>>)

  /** The entries of `items` whose attribute the serializer writes, in order. */
  function WritableItems(s: Serializer, items: seq<Assignment>): (kept: seq<Assignment>)
    ensures forall x :: x in kept <==> x in items && Writable(s, Scalar(x.attr))
    ensures |kept| <= |items|
  {
    if items == [] then []
    else (if Writable(s, Scalar(items[0].attr)) then [items[0]] else []) + WritableItems(s, items[1..])
  }

  /**
   * Field filtering by the serializer's field list: entries for fields it
   * does not declare, the read-only id and any owner key are dropped.
   */
  function Validate(s: Serializer, p: Payload): (d: ValidatedData)
    ensures forall x :: x in d.items <==> x in p.items && Writable(s, Scalar(x.attr))
    ensures d.tags == p.tags && d.ingredients == p.ingredients
  {
    ValidatedData(WritableItems(s, p.items),
                  if Writable(s, Tags) then p.tags else None,
                  if Writable(s, Ingredients) then p.ingredients else None)
  }

  /** The entries after the first of a dictionary form a dictionary. */
  lemma TailWellFormed(items: seq<Assignment>)
    requires WellFormed(items) && items != []
    ensures WellFormed(items[1..])
    ensures forall x :: x in items[1..] ==> x.attr != items[0].attr
  {
    var rest := items[1..];
    forall i, j | 0 <= i < j < |rest| ensures rest[i].attr != rest[j].attr {
      assert rest[i] == items[i + 1] && rest[j] == items[j + 1];
    }
    forall x | x in rest ensures x.attr != items[0].attr {
      var j :| 0 <= j < |rest| && rest[j] == x;
      assert items[j + 1] == x;
    }
  }

  /** An entry for a new attribute in front of a dictionary gives a dictionary. */
  lemma ConsWellFormed(x: Assignment, tail: seq<Assignment>)
    requires WellFormed(tail) && Fits(x.attr, x.value)
    requires forall y :: y in tail ==> y.attr != x.attr
    ensures WellFormed([x] + tail)
  {
    var all := [x] + tail;
    forall i, j | 0 <= i < j < |all| ensures all[i].attr != all[j].attr {
      assert all[j] == tail[j - 1];
      if i > 0 { assert all[i] == tail[i - 1]; } else { assert all[j] in tail; }
    }
  }

  /** Dropping entries keeps a dictionary a dictionary. */
  lemma {:induction false} WritableItemsWellFormed(s: Serializer, items: seq<Assignment>)
    requires WellFormed(items)
    ensures WellFormed(WritableItems(s, items))
  {
    if items != [] {
      TailWellFormed(items);
      WritableItemsWellFormed(s, items[1..]);
      var tail := WritableItems(s, items[1..]);
      if Writable(s, Scalar(items[0].attr)) {
        ConsWellFormed(items[0], tail);
      }
    }
  }

  /**
   * The list serializer writes title, time, price and link only; the detail
   * serializer also writes description, steps and image; neither writes the id.
   */
  lemma WritableAttrs(a: Attr)
    ensures Writable(RecipeSerializer, Scalar(a)) <==> a in {Title, TimeMinutes, Price, Link}
    ensures Writable(RecipeDetailSerializer, Scalar(a))
    ensures !Writable(RecipeSerializer, Id) && !Writable(RecipeDetailSerializer, Id)
  {
  }
}
