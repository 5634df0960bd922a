/**
 * The catalog as the bot holds it: two module-level dicts that the admin
 * handlers update in place. Each method is one of the dict manipulations
 * the handlers perform, and is proved to produce the tables the matching
 * `Catalog` function describes.
 */
module Store {
  import opened Catalog

  class CatalogStore {
    /** CATEGORIES: key order, and key -> ordered list of item keys. */
    var order: seq<string>
    var lists: map<string, seq<string>>
    /** ITEMS: item key -> record. */
    var items: map<string, Item>

    function Snapshot(): Tables
      reads this
    {
      Tables(order, lists, items)
    }

    predicate Valid()
      reads this
    {
      WellFormed(Snapshot())
    }

    /** The tables loaded at start-up (the defaults when no JSON file exists). */
    constructor (init: Tables)
      requires WellFormed(init)
      ensures Valid() && Snapshot() == init
    {
      order := init.order;
      lists := init.lists;
      items := init.items;
    }

    /** `CATEGORIES[key] = []` */
    method AddCategory(key: string)
      requires Valid()
      modifies this
      ensures Valid()
      ensures Snapshot() == Catalog.AddCategory(old(Snapshot()), key)
    {
      SetCategoryWellFormed(Snapshot(), key, []);
      if key !in lists {
        order := order + [key];
      }
      lists := lists[key := []];
    }

    /** `CATEGORIES[newKey] = CATEGORIES.pop(oldKey)`: the pop happens first. */
    method RenameCategory(oldKey: string, newKey: string)
      requires Valid() && oldKey in lists
      modifies this
      ensures Valid()
      ensures Snapshot() == Catalog.RenameCategory(old(Snapshot()), oldKey, newKey)
    {
      PopCategoryWellFormed(Snapshot(), oldKey);
      SetCategoryWellFormed(PopCategory(Snapshot(), oldKey), newKey, lists[oldKey]);
      var moved := lists[oldKey];
      lists := lists - {oldKey};
      order := RemoveFirst(order, oldKey);
      if newKey !in lists {
        order := order + [newKey];
      }
      lists := lists[newKey := moved];
    }

    /** `CATEGORIES.pop(key, None)` */
    method DeleteCategory(key: string)
      requires Valid()
      modifies this
      ensures Valid()
      ensures Snapshot() == Catalog.DeleteCategory(old(Snapshot()), key)
    {
      PopCategoryWellFormed(Snapshot(), key);
      if key in lists {
        lists := lists - {key};
        order := RemoveFirst(order, key);
      }
    }

    /** `CATEGORIES.setdefault(cat, []).append(key)` */
    method AppendToCategory(cat: string, key: string)
      requires Valid()
      modifies this
      ensures Valid()
      ensures Snapshot() == Catalog.AppendToCategory(old(Snapshot()), cat, key)
    {
      SetCategoryWellFormed(Snapshot(), cat, (if cat in lists then lists[cat] else []) + [key]);
      if cat !in lists {
        order := order + [cat];
        lists := lists[cat := []];
      }
      lists := lists[cat := lists[cat] + [key]];
    }

    /** `ITEMS[key] = item`, then the item joins category `cat`. */
    method AddItem(key: string, item: Item, cat: string)
      requires Valid()
      modifies this
      ensures Valid()
      ensures Snapshot() == Catalog.AddItem(old(Snapshot()), key, item, cat)
    {
      items := items[key := item];
      AppendToCategory(cat, key);
    }

    /** `ITEMS[key]["price_btc"] = price` */
    method SetPrice(key: string, price: real)
      requires Valid() && key in items
      modifies this
      ensures Valid()
      ensures Snapshot() == PutItem(old(Snapshot()), key, old(items[key]).(priceBtc := price))
    {
      items := items[key := items[key].(priceBtc := price)];
    }

    /** `ITEMS[key][field] = text` for a field holding text. */
    method SetTextField(key: string, field: string, text: string)
      requires Valid() && key in items
      modifies this
      ensures Valid()
      ensures Snapshot() == PutItem(old(Snapshot()), key, WithTextField(old(items[key]), field, text))
    {
      items := items[key := WithTextField(items[key], field, text)];
    }

    /**
     * `for cat, items in CATEGORIES.items(): if key in items: items.remove(key)`,
     * visiting the categories in the dict's order.
     */
    method RemoveEverywhere(key: string)
      requires Valid()
      modifies this
      ensures Valid()
      ensures Snapshot() == Catalog.RemoveEverywhere(old(Snapshot()), key)
    {
      lists := RemoveFromLists(lists, order, key);
    }

    /** Remove `key` from every category, then it joins `cat` at the end. */
    method MoveItem(key: string, cat: string)
      requires Valid()
      modifies this
      ensures Valid()
      ensures Snapshot() == Catalog.MoveItem(old(Snapshot()), key, cat)
    {
      RemoveEverywhere(key);
      AppendToCategory(cat, key);
    }

    /** `ITEMS.pop(key, None)`, then `key` leaves every category. */
    method DeleteItem(key: string)
      requires Valid()
      modifies this
      ensures Valid()
      ensures Snapshot() == Catalog.DeleteItem(old(Snapshot()), key)
    {
      items := items - {key};
      RemoveEverywhere(key);
    }
  }

  /**
   * The loop of the item move and delete handlers: visit the categories in
   * `keys` order and remove the first `key` from each list holding it.
   */
  method RemoveFromLists(lists: map<string, seq<string>>, keys: seq<string>, key: string)
    returns (updated: map<string, seq<string>>)
    requires Distinct(keys) && forall c :: c in lists ==> c in keys
    requires forall j :: 0 <= j < |keys| ==> keys[j] in lists
    ensures updated == RemovedFromAll(lists, key)
  {
    ghost var done: set<string> := {};
    updated := lists;
    var i := 0;
    while i < |keys|
      invariant 0 <= i <= |keys|
      invariant forall j :: 0 <= j < i ==> keys[j] in done
      invariant forall j :: i <= j < |keys| ==> keys[j] !in done
      invariant updated == Visited(lists, done, key)
    {
      var c := keys[i];
      VisitStep(lists, done, c, key, updated);
      if key in updated[c] {
        updated := updated[c := RemoveFirst(updated[c], key)];
      }
      done := done + {c};
      i := i + 1;
    }
    VisitDone(lists, done, key);
  }

  /** The lists after the categories in `done` have had their first `key` removed. */
  ghost function Visited(lists: map<string, seq<string>>, done: set<string>, key: string): map<string, seq<string>> {
    map c | c in lists :: if c in done then RemoveFirst(lists[c], key) else lists[c]
  }

  lemma VisitStep(lists: map<string, seq<string>>, done: set<string>, c: string, key: string,
                  updated: map<string, seq<string>>)
    requires c in lists && c !in done && updated == Visited(lists, done, key)
    ensures c in updated && updated[c] == lists[c]
    ensures updated[c := RemoveFirst(updated[c], key)] == Visited(lists, done + {c}, key)
    ensures key !in updated[c] ==> updated == Visited(lists, done + {c}, key)
  {
    var after := Visited(lists, done + {c}, key);
    var stepped := updated[c := RemoveFirst(lists[c], key)];
    assert after.Keys == stepped.Keys;
    forall d | d in after ensures after[d] == stepped[d] {
    }
    if key !in updated[c] {
      UpdateSame(updated, c);
    }
  }

  lemma UpdateSame(m: map<string, seq<string>>, c: string)
    requires c in m
    ensures m[c := m[c]] == m
  {
  }

  lemma VisitDone(lists: map<string, seq<string>>, done: set<string>, key: string)
    requires lists.Keys <= done
    ensures Visited(lists, done, key) == RemovedFromAll(lists, key)
  {
  }
}
