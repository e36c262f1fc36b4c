/**
 * Choosing the affirmation to show: the data set with its offline fallback,
 * the candidate pool built from the built-in and personal entries and the
 * selected category, the random pick that avoids the entry shown before, and
 * the display name of the chosen entry's category.
 */
module Pool {
  import opened Wrappers

  /** One affirmation of the data set: its text and its category key. */
  datatype Entry = Entry(text: string, category: string)

  /** The data set: category key to display name, and the built-in entries. */
  datatype Data = Data(categories: map<string, string>, affirmations: seq<Entry>)

  /** Where a pool item comes from. Built-in entries are the same objects on
      every call; personal entries are new objects built on each call. */
  datatype Origin = BuiltIn(index: nat) | Personal(index: nat)

  /** An entry of the candidate pool, together with its origin, which stands
      for the object identity the source compares with `===`. */
  datatype Item = Item(text: string, category: string, origin: Origin)

  /** Outcome of the pick: an item, `undefined` from an empty pool, or the
      injected random draws ran out before an acceptable item came up. */
  datatype PickResult = Chosen(item: Item) | Undefined | OutOfDraws

  /** What the page shows: the chosen item and its category's display name. */
  datatype Shown = Shown(item: Item, badge: string)

  const AllCategories := "all"
  const PersonalCategory := "personal"
  /** The badge text of a personal entry ("personal sentence"). */
  const PersonalLabel := "משפט אישי"

  /** The data set used when the data file cannot be fetched or parsed. */
  const FallbackData := Data(
    map["faith" := "אמונה והשגחה"],
    [Entry("הכל מדויק לי", "faith"), Entry("אני בדיוק במקום הנכון", "faith")])

  /** Loading the data set: the parsed data file, or the built-in fallback
      when the fetch or the parse fails. */
  function LoadAffirmations(fetched: Option<Data>): (d: Data)
    ensures fetched.Some? ==> d == fetched.value
    ensures fetched.None? ==> |d.affirmations| == 2 && d.categories.Keys == {"faith"}
    ensures fetched.None? ==> CategoriesRegistered(d)
  {
    match fetched
    case Some(data) => data
    case None => FallbackData
  }

  /** Every built-in entry's category has a non-empty display name. */
  predicate CategoriesRegistered(data: Data)
  {
    forall k :: 0 <= k < |data.affirmations| ==>
      data.affirmations[k].category in data.categories && data.categories[data.affirmations[k].category] != ""
  }

  /** The built-in entries as pool items, each tagged with its own index. */
  function BuiltInItems(entries: seq<Entry>): (r: seq<Item>)
    ensures |r| == |entries|
    ensures forall i :: 0 <= i < |r| ==>
      r[i] == Item(entries[i].text, entries[i].category, BuiltIn(i))
  {
    seq(|entries|, i requires 0 <= i < |entries| => Item(entries[i].text, entries[i].category, BuiltIn(i)))
  }

  /** The personal texts as fresh pool items of category "personal". */
  function PersonalItems(texts: seq<string>): (r: seq<Item>)
    ensures |r| == |texts|
    ensures forall i :: 0 <= i < |r| ==> r[i] == Item(texts[i], PersonalCategory, Personal(i))
  {
    seq(|texts|, i requires 0 <= i < |texts| => Item(texts[i], PersonalCategory, Personal(i)))
  }

  /** `pool.filter(a => a.category === category)`. */
  function FilterCategory(pool: seq<Item>, category: string): (r: seq<Item>)
    ensures |r| <= |pool|
    ensures forall x :: x in r <==> x in pool && x.category == category
    ensures r == [] <==> forall i :: 0 <= i < |pool| ==> pool[i].category != category
  {
    if pool == [] then []
    else if pool[0].category == category then [pool[0]] + FilterCategory(pool[1..], category)
    else FilterCategory(pool[1..], category)
  }

  /** Filtering a concatenation filters each part: with the one-item case
      this fixes the order of the result and how often each item occurs. */
  lemma {:induction false} FilterAppend(a: seq<Item>, b: seq<Item>, category: string)
    ensures FilterCategory(a + b, category) == FilterCategory(a, category) + FilterCategory(b, category)
  {
    if a == [] {
      assert a + b == b;
    } else {
      assert (a + b)[0] == a[0];
      assert (a + b)[1..] == a[1..] + b;
      FilterAppend(a[1..], b, category);
    }
  }

  /** Filtering a single item keeps it exactly when it has the category. */
  lemma FilterSingle(x: Item, category: string)
    ensures FilterCategory([x], category) == if x.category == category then [x] else []
  {
    assert [x][1..] == [];
  }

  /** No two items of the sequence are the same object. */
  predicate DistinctOrigins(pool: seq<Item>)
  {
    forall i, j :: 0 <= i < j < |pool| ==> pool[i].origin != pool[j].origin
  }

  /** The candidate pool: the built-in entries followed by the personal ones,
      restricted to the selected category unless it is "all"; an empty result
      falls back to the built-in entries alone. */
  function BuildPool(builtins: seq<Entry>, personal: seq<string>, category: string): (pool: seq<Item>)
    ensures category == AllCategories ==> pool == BuiltInItems(builtins) + PersonalItems(personal)
    ensures category != AllCategories && (exists x :: x in Candidates(builtins, personal) && x.category == category) ==>
      && pool == FilterCategory(BuiltInItems(builtins), category) + FilterCategory(PersonalItems(personal), category)
      && forall x :: x in pool ==> x.category == category
    ensures category != AllCategories && (forall x :: x in Candidates(builtins, personal) ==> x.category != category) ==>
      pool == BuiltInItems(builtins)
    ensures forall x :: x in pool ==> x in Candidates(builtins, personal)
  {
    assert PersonalItems([]) == [];
    FilterAppend(BuiltInItems(builtins), PersonalItems(personal), category);
    var all := BuiltInItems(builtins) + (if |personal| > 0 then PersonalItems(personal) else []);
    var filtered := if category != AllCategories then FilterCategory(all, category) else all;
    if |filtered| == 0 then BuiltInItems(builtins) else filtered
  }

  /** `Math.floor(r * n)` for a value `r` of `Math.random()`. */
  function DrawIndex(r: real, n: nat): (k: nat)
    requires 0.0 <= r < 1.0
    ensures n > 0 ==> k < n
  {
    (r * n as real).Floor
  }

  /** Values `Math.random()` can return. */
  predicate ValidDraws(draws: seq<real>)
  {
    forall k :: 0 <= k < |draws| ==> 0.0 <= draws[k] < 1.0
  }

  /** `next === currentAffirmation`: only a built-in item can be the very
      object shown before, since personal items are rebuilt on every call. */
  function IsPrevious(item: Item, previous: Option<Item>): (same: bool)
    ensures item.origin.Personal? ==> !same
    ensures item.origin.BuiltIn? ==> (same <==> previous.Some? && previous.value.origin == item.origin)
  {
    previous.Some? && item.origin.BuiltIn? && item.origin == previous.value.origin
  }

  /** The draw `r` ends the retry loop: the pool has a single entry or the
      drawn item is not the previous one. */
  predicate Accepts(pool: seq<Item>, previous: Option<Item>, r: real)
    requires |pool| > 0 && 0.0 <= r < 1.0
  {
    |pool| <= 1 || !IsPrevious(pool[DrawIndex(r, |pool|)], previous)
  }

  /** The do-while pick: draw until the item differs from the previous one or
      the pool has a single entry, consuming the injected draws in order. */
  function Pick(pool: seq<Item>, previous: Option<Item>, draws: seq<real>): (r: PickResult)
    requires ValidDraws(draws)
    ensures r.Chosen? ==> r.item in pool
    ensures r.Chosen? && |pool| > 1 ==> !IsPrevious(r.item, previous)
    ensures r.Undefined? <==> pool == []
    decreases |draws|
  {
    if pool == [] then Undefined
    else if draws == [] then OutOfDraws
    else
      var next := pool[DrawIndex(draws[0], |pool|)];
      if IsPrevious(next, previous) && |pool| > 1 then Pick(pool, previous, draws[1..])
      else Chosen(next)
  }

  /** The badge text: the personal label for "personal", otherwise the
      registry's name for the key when it is a non-empty string, otherwise
      the key itself. */
  function DisplayName(key: string, categories: map<string, string>): (badge: string)
    ensures key == PersonalCategory ==> badge == PersonalLabel
    ensures key != PersonalCategory && key in categories && categories[key] != "" ==> badge == categories[key]
    ensures key != PersonalCategory && (key !in categories || categories[key] == "") ==> badge == key
    ensures badge == "" ==> key == ""
  {
    if key == PersonalCategory then PersonalLabel
    else if key in categories && categories[key] != "" then categories[key]
    else key
  }

  /** One press of "new affirmation": build the pool, pick from it, and name
      the chosen item's category. */
  function ShowRandomAffirmation(data: Data, personal: seq<string>, category: string,
                                 previous: Option<Item>, draws: seq<real>): (r: Option<Shown>)
    requires ValidDraws(draws)
    ensures r.Some? ==> r.value.item in BuildPool(data.affirmations, personal, category)
    ensures r.Some? && |BuildPool(data.affirmations, personal, category)| > 1 ==>
      !IsPrevious(r.value.item, previous)
    ensures r.Some? ==> r.value.badge == DisplayName(r.value.item.category, data.categories)
    ensures r.Some? <==> Pick(BuildPool(data.affirmations, personal, category), previous, draws).Chosen?
    ensures r.Some? ==> r.value.item == Pick(BuildPool(data.affirmations, personal, category), previous, draws).item
  {
    match Pick(BuildPool(data.affirmations, personal, category), previous, draws)
    case Chosen(item) => Some(Shown(item, DisplayName(item.category, data.categories)))
    case _ => None
  }

  /** Every item the pool is drawn from before filtering, in order. */
  function Candidates(builtins: seq<Entry>, personal: seq<string>): seq<Item>
  {
    BuiltInItems(builtins) + PersonalItems(personal)
  }

  /** The pool is empty only when there are no built-in entries and the
      selection admits no personal entry either. */
  lemma PoolEmptyIff(builtins: seq<Entry>, personal: seq<string>, category: string)
    ensures BuildPool(builtins, personal, category) == [] <==>
      builtins == [] && (personal == [] || (category != AllCategories && category != PersonalCategory))
  {
  }

  /** The items after the first of a sequence of distinct objects are
      distinct, and none of them is the first. */
  lemma DistinctTail(pool: seq<Item>)
    requires DistinctOrigins(pool) && pool != []
    ensures DistinctOrigins(pool[1..])
    ensures forall x :: x in pool[1..] ==> x.origin != pool[0].origin
  {
  }

  /** Putting in front of distinct objects one that is none of them. */
  lemma DistinctCons(x: Item, rest: seq<Item>)
    requires DistinctOrigins(rest)
    requires forall y :: y in rest ==> y.origin != x.origin
    ensures DistinctOrigins([x] + rest)
  {
  }

  /** Filtering keeps distinct objects distinct. */
  lemma {:induction false} FilterKeepsDistinct(pool: seq<Item>, category: string)
    requires DistinctOrigins(pool)
    ensures DistinctOrigins(FilterCategory(pool, category))
  {
    if pool != [] {
      DistinctTail(pool);
      FilterKeepsDistinct(pool[1..], category);
      if pool[0].category == category {
        DistinctCons(pool[0], FilterCategory(pool[1..], category));
      }
    }
  }

  /** No two pool items are the same object. */
  lemma PoolDistinct(builtins: seq<Entry>, personal: seq<string>, category: string)
    ensures DistinctOrigins(BuildPool(builtins, personal, category))
  {
    var all := BuiltInItems(builtins) + (if |personal| > 0 then PersonalItems(personal) else []);
    assert DistinctOrigins(all) by {
      forall i, j | 0 <= i < j < |all|
        ensures all[i].origin != all[j].origin
      {
        if j >= |builtins| && i >= |builtins| {
          assert all[i] == PersonalItems(personal)[i - |builtins|];
          assert all[j] == PersonalItems(personal)[j - |builtins|];
        }
      }
    }
    if category != AllCategories {
      FilterKeepsDistinct(all, category);
    }
  }

  /** In a pool of two or more distinct objects some item is not the one
      shown before, so the retry loop has something to stop on. */
  lemma AlternativeExists(pool: seq<Item>, previous: Option<Item>)
    requires DistinctOrigins(pool) && |pool| > 1
    ensures exists i :: 0 <= i < |pool| && !IsPrevious(pool[i], previous)
  {
    if IsPrevious(pool[0], previous) {
      assert pool[0].origin != pool[1].origin;
      assert !IsPrevious(pool[1], previous);
    } else {
      assert !IsPrevious(pool[0], previous);
    }
  }

  /** The pick is the item of the first draw that ends the loop. */
  lemma {:induction false} PickIsFirstAccepted(pool: seq<Item>, previous: Option<Item>, draws: seq<real>, k: nat)
    requires ValidDraws(draws) && pool != [] && k < |draws|
    requires Accepts(pool, previous, draws[k])
    requires forall j :: 0 <= j < k ==> !Accepts(pool, previous, draws[j])
    ensures Pick(pool, previous, draws) == Chosen(pool[DrawIndex(draws[k], |pool|)])
  {
    if k > 0 {
      var rest := draws[1..];
      assert !Accepts(pool, previous, draws[0]);
      forall j | 0 <= j < k - 1
        ensures !Accepts(pool, previous, rest[j])
      {
        assert rest[j] == draws[j + 1];
      }
      PickIsFirstAccepted(pool, previous, rest, k - 1);
    }
  }

  /** When no draw ends the loop the injected randomness runs out. */
  lemma {:induction false} PickRunsOut(pool: seq<Item>, previous: Option<Item>, draws: seq<real>)
    requires ValidDraws(draws) && pool != []
    requires forall j :: 0 <= j < |draws| ==> !Accepts(pool, previous, draws[j])
    ensures Pick(pool, previous, draws) == OutOfDraws
  {
    if draws != [] {
      var rest := draws[1..];
      assert !Accepts(pool, previous, draws[0]);
      forall j | 0 <= j < |rest|
        ensures !Accepts(pool, previous, rest[j])
      {
        assert rest[j] == draws[j + 1];
      }
      PickRunsOut(pool, previous, rest);
    }
  }

  /** A personal text can be shown twice in a row: the entry shown before is
      a different object from the one rebuilt for the next pool. */
  lemma PersonalTextCanRepeat()
    ensures var data := Data(map[], []);
            var first := ShowRandomAffirmation(data, ["a", "b"], PersonalCategory, None, [0.0]);
            && first.Some?
            && var second := ShowRandomAffirmation(data, ["a", "b"], PersonalCategory, Some(first.value.item), [0.0]);
            && second.Some? && second.value.item.text == first.value.item.text
  {
  }

  /** A personal item is never the object shown before, so a draw that lands
      on one ends the loop at once. */
  lemma PersonalChosenOnFirstDraw(pool: seq<Item>, previous: Option<Item>, draws: seq<real>)
    requires ValidDraws(draws) && pool != [] && draws != []
    requires pool[DrawIndex(draws[0], |pool|)].origin.Personal?
    ensures Pick(pool, previous, draws) == Chosen(pool[DrawIndex(draws[0], |pool|)])
  {
  }

  /** When every built-in category has a registered name, as the fallback
      data set guarantees, the badge never shows a raw category key: it is
      the personal label or a registered display name. */
  lemma BadgeIsRegisteredName(data: Data, personal: seq<string>, category: string,
                              previous: Option<Item>, draws: seq<real>)
    requires ValidDraws(draws) && CategoriesRegistered(data)
    requires ShowRandomAffirmation(data, personal, category, previous, draws).Some?
    ensures var badge := ShowRandomAffirmation(data, personal, category, previous, draws).value.badge;
      badge == PersonalLabel || badge in data.categories.Values
  {
    var shown := ShowRandomAffirmation(data, personal, category, previous, draws).value;
    var cands := Candidates(data.affirmations, personal);
    assert shown.item in cands;
    var i :| 0 <= i < |cands| && cands[i] == shown.item;
    if i < |data.affirmations| {
      assert shown.item.category == data.affirmations[i].category;
    } else {
      assert shown.item == PersonalItems(personal)[i - |data.affirmations|];
    }
  }
}
