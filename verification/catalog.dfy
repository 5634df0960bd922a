/**
 * The two catalog tables as values, and each admin mutation as a function
 * from the tables before to the tables after. CATEGORIES is a Python dict,
 * so its key order (insertion order) is kept next to the key -> item-list
 * map; ITEMS is kept as a map.
 */
module Catalog {

  /** An entry of ITEMS: `{name, price_btc, file_path}`, plus any further field an edit added. */
  datatype Item = Item(name: string, priceBtc: real, filePath: string, extra: map<string, string>)

  /** CATEGORIES (`order` and `lists`) and ITEMS. */
  datatype Tables = Tables(order: seq<string>, lists: map<string, seq<string>>, items: map<string, Item>)

  predicate Distinct<T(==)>(s: seq<T>) {
    forall i, j :: 0 <= i < j < |s| ==> s[i] != s[j]
  }

  /** A dict's key order lists each of its keys exactly once. */
  predicate WellFormed(t: Tables) {
    && Distinct(t.order)
    && (forall c :: c in t.order ==> c in t.lists)
    && (forall c :: c in t.lists ==> c in t.order)
  }

  /** Referential integrity: every item key a category lists is an item. */
  predicate Referenced(t: Tables) {
    forall c, k :: c in t.lists && k in t.lists[c] ==> k in t.items
  }

  /** No category lists an item key twice. */
  predicate NoDuplicates(t: Tables) {
    forall c :: c in t.lists ==> Distinct(t.lists[c])
  }

  /** The categories that list `key`. */
  function Homes(t: Tables, key: string): set<string> {
    set c | c in t.lists && key in t.lists[c]
  }

  // ---------- list.remove ----------

  /** Python's `list.remove(x)` when `x` is present, and no change when it is not. */
  function RemoveFirst<T(==)>(s: seq<T>, x: T): (r: seq<T>)
    ensures x !in s ==> r == s
    ensures x in s ==> |r| == |s| - 1
  {
    if s == [] then []
    else if s[0] == x then s[1..]
    else [s[0]] + RemoveFirst(s[1..], x)
  }

  /** `remove` takes away one occurrence of `x`, if there is one, and nothing else. */
  lemma {:induction false} RemoveFirstCount<T>(s: seq<T>, x: T)
    ensures multiset(RemoveFirst(s, x)) == multiset(s) - multiset{x}
  {
    if s != [] {
      assert s == [s[0]] + s[1..];
      if s[0] != x {
        RemoveFirstCount(s[1..], x);
      }
    }
  }

  /** Position of the first occurrence of `x`. */
  function IndexOf<T(==)>(s: seq<T>, x: T): (i: nat)
    requires x in s
    ensures i < |s| && s[i] == x && x !in s[..i]
  {
    if s[0] == x then 0
    else
      var j := IndexOf(s[1..], x);
      assert s[..1 + j] == [s[0]] + s[1..][..j];
      1 + j
  }

  /** `remove` deletes exactly the first occurrence and keeps the order of the rest. */
  lemma {:induction false} RemoveFirstSplices<T>(s: seq<T>, x: T)
    requires x in s
    ensures RemoveFirst(s, x) == s[..IndexOf(s, x)] + s[IndexOf(s, x) + 1..]
  {
    if s[0] != x {
      var t := s[1..];
      RemoveFirstSplices(t, x);
      SpliceCons(s, IndexOf(t, x));
    } else {
      assert s[..0] + s[1..] == s[1..];
    }
  }

  lemma SpliceCons<T>(s: seq<T>, j: nat)
    requires j + 1 < |s|
    ensures [s[0]] + (s[1..][..j] + s[1..][j + 1..]) == s[..1 + j] + s[1 + j + 1..]
  {
    assert s[..1 + j] == [s[0]] + s[1..][..j];
  }

  lemma DistinctCons<T>(a: T, s: seq<T>)
    requires a !in s && Distinct(s)
    ensures Distinct([a] + s)
  {
    var r := [a] + s;
    forall i, j | 0 <= i < j < |r| ensures r[i] != r[j] {
      if i == 0 { assert r[j] == s[j - 1]; } else { assert r[i] == s[i - 1] && r[j] == s[j - 1]; }
    }
  }

  /** Removing from a list without duplicates leaves none and removes `x` altogether. */
  lemma {:induction false} RemoveFirstDistinct<T>(s: seq<T>, x: T)
    requires Distinct(s)
    ensures Distinct(RemoveFirst(s, x)) && x !in RemoveFirst(s, x)
  {
    if s != [] {
      assert Distinct(s[1..]) by {
        forall i, j | 0 <= i < j < |s| - 1 ensures s[1..][i] != s[1..][j] { assert s[i + 1] != s[j + 1]; }
      }
      assert s[0] !in s[1..] by {
        forall j | 0 <= j < |s| - 1 ensures s[1..][j] != s[0] { assert s[j + 1] != s[0]; }
      }
      if s[0] != x {
        RemoveFirstDistinct(s[1..], x);
        var r := RemoveFirst(s[1..], x);
        RemoveFirstCount(s[1..], x);
        assert multiset(r)[s[0]] == 0;
        DistinctCons(s[0], r);
      }
    }
  }

  // ---------- The dict operations the handlers use ----------

  /** `CATEGORIES[key] = list`: a new key goes to the end of the order, an existing one keeps its place. */
  function SetCategory(t: Tables, key: string, list: seq<string>): Tables {
    Tables(if key in t.lists then t.order else t.order + [key], t.lists[key := list], t.items)
  }

  /** `CATEGORIES.pop(key, None)`: no change when the key is absent. */
  function PopCategory(t: Tables, key: string): Tables {
    if key in t.lists then Tables(RemoveFirst(t.order, key), t.lists - {key}, t.items) else t
  }

  /** `CATEGORIES.setdefault(cat, []).append(key)` */
  function AppendToCategory(t: Tables, cat: string, key: string): Tables {
    SetCategory(t, cat, (if cat in t.lists then t.lists[cat] else []) + [key])
  }

  /** `for items in CATEGORIES.values(): if key in items: items.remove(key)` */
  function RemoveEverywhere(t: Tables, key: string): Tables {
    t.(lists := RemovedFromAll(t.lists, key))
  }

  /** Every list with its first `key` removed. */
  function RemovedFromAll(lists: map<string, seq<string>>, key: string): map<string, seq<string>> {
    map c | c in lists :: RemoveFirst(lists[c], key)
  }

  // ---------- The seven catalog mutations ----------

  /** `CATEGORIES[text] = []` (admin_cat_add_receive) */
  function AddCategory(t: Tables, key: string): Tables {
    SetCategory(t, key, [])
  }

  /** `CATEGORIES[new_key] = CATEGORIES.pop(old_key)` (admin_cat_edit_receive) */
  function RenameCategory(t: Tables, oldKey: string, newKey: string): Tables
    requires oldKey in t.lists
  {
    SetCategory(PopCategory(t, oldKey), newKey, t.lists[oldKey])
  }

  /** `CATEGORIES.pop(key, None)` (admin_cat_delete_execute) */
  function DeleteCategory(t: Tables, key: string): Tables {
    PopCategory(t, key)
  }

  /** `ITEMS[key] = item` then `CATEGORIES.setdefault(cat, []).append(key)` (admin_item_add_category_selected) */
  function AddItem(t: Tables, key: string, item: Item, cat: string): Tables {
    AppendToCategory(t.(items := t.items[key := item]), cat, key)
  }

  /** `ITEMS[key][field] = value` for one field (admin_item_field_value_received) */
  function PutItem(t: Tables, key: string, item: Item): Tables {
    t.(items := t.items[key := item])
  }

  /** Remove `key` from every category, then `setdefault(new_cat, []).append(key)` (admin_item_move_category) */
  function MoveItem(t: Tables, key: string, cat: string): Tables {
    AppendToCategory(RemoveEverywhere(t, key), cat, key)
  }

  /** `ITEMS.pop(key)`, then remove `key` from every category (admin_item_delete_execute) */
  function DeleteItem(t: Tables, key: string): Tables {
    RemoveEverywhere(t.(items := t.items - {key}), key)
  }

  /** A text field of an item set by the edit flow: `name`, `file_path`, or any other name. */
  function WithTextField(item: Item, field: string, text: string): Item {
    if field == "name" then item.(name := text)
    else if field == "file_path" then item.(filePath := text)
    else item.(extra := item.extra[field := text])
  }

  // ---------- What each mutation does to the tables ----------

  lemma SetCategoryWellFormed(t: Tables, key: string, list: seq<string>)
    requires WellFormed(t)
    ensures WellFormed(SetCategory(t, key, list))
  {
    if key !in t.lists {
      var o := t.order + [key];
      forall i, j | 0 <= i < j < |o| ensures o[i] != o[j] {
        if j == |o| - 1 { assert o[i] in t.order; }
      }
    }
  }

  lemma PopCategoryWellFormed(t: Tables, key: string)
    requires WellFormed(t)
    ensures WellFormed(PopCategory(t, key))
  {
    if key in t.lists {
      RemoveFirstDistinct(t.order, key);
      RemoveFirstCount(t.order, key);
      var o := RemoveFirst(t.order, key);
      forall c ensures c in o <==> c in t.lists - {key} {
        if c != key {
          assert c in o <==> c in multiset(o);
        }
      }
    }
  }

  /** Adding a category: one new empty category at the end of the order, nothing else changes. */
  lemma AddCategoryEffect(t: Tables, key: string)
    requires WellFormed(t) && key !in t.lists
    ensures var r := AddCategory(t, key);
      && WellFormed(r)
      && r.order == t.order + [key]
      && r.lists.Keys == t.lists.Keys + {key} && r.lists[key] == []
      && (forall c :: c in t.lists ==> r.lists[c] == t.lists[c])
      && r.items == t.items
      && (Referenced(t) ==> Referenced(r))
      && (NoDuplicates(t) ==> NoDuplicates(r))
  {
    SetCategoryWellFormed(t, key, []);
  }

  /**
   * Renaming: the old key is gone, the new key holds the old list in the same
   * order and comes last in the key order; other categories and ITEMS are unchanged.
   */
  lemma RenameCategoryEffect(t: Tables, oldKey: string, newKey: string)
    requires WellFormed(t) && oldKey in t.lists && newKey !in t.lists
    ensures var r := RenameCategory(t, oldKey, newKey);
      && WellFormed(r)
      && r.order == RemoveFirst(t.order, oldKey) + [newKey]
      && r.lists.Keys == t.lists.Keys - {oldKey} + {newKey}
      && r.lists[newKey] == t.lists[oldKey]
      && (forall c :: c in t.lists && c != oldKey ==> r.lists[c] == t.lists[c])
      && r.items == t.items
      && (Referenced(t) ==> Referenced(r))
      && (NoDuplicates(t) ==> NoDuplicates(r))
  {
    PopCategoryWellFormed(t, oldKey);
    var p := PopCategory(t, oldKey);
    assert p.lists == t.lists - {oldKey} && p.order == RemoveFirst(t.order, oldKey) && p.items == t.items;
    SetCategoryWellFormed(p, newKey, t.lists[oldKey]);
    var r := RenameCategory(t, oldKey, newKey);
    assert r.lists == p.lists[newKey := t.lists[oldKey]];
    assert r.order == p.order + [newKey];
    if Referenced(t) {
      forall c, k | c in r.lists && k in r.lists[c] ensures k in r.items {
        if c != newKey { assert r.lists[c] == t.lists[c]; }
      }
    }
    if NoDuplicates(t) {
      forall c | c in r.lists ensures Distinct(r.lists[c]) {
        if c != newKey { assert r.lists[c] == t.lists[c]; }
      }
    }
  }

  /**
   * Deleting a category removes only that key (no change when it is absent);
   * ITEMS is untouched, so every item it listed still exists, orphaned.
   */
  lemma DeleteCategoryEffect(t: Tables, key: string)
    requires WellFormed(t)
    ensures var r := DeleteCategory(t, key);
      && WellFormed(r)
      && r.order == RemoveFirst(t.order, key)
      && r.lists == t.lists - {key}
      && (key !in t.lists ==> r == t)
      && r.items == t.items
      && (forall c, k :: c in t.lists && k in t.lists[c] && k in t.items ==> k in r.items)
      && (Referenced(t) ==> Referenced(r))
      && (NoDuplicates(t) ==> NoDuplicates(r))
  {
    PopCategoryWellFormed(t, key);
    if key !in t.lists { assert t.lists - {key} == t.lists; }
  }

  /**
   * Committing a new item: ITEMS[key] is the new record and `key` ends the
   * chosen category's list, which is created (last in the order) when absent.
   */
  lemma AddItemEffect(t: Tables, key: string, item: Item, cat: string)
    requires WellFormed(t)
    ensures var r := AddItem(t, key, item, cat);
      && WellFormed(r)
      && r.items == t.items[key := item]
      && r.lists == t.lists[cat := (if cat in t.lists then t.lists[cat] else []) + [key]]
      && r.order == (if cat in t.lists then t.order else t.order + [cat])
      && (Referenced(t) ==> Referenced(r))
  {
    SetCategoryWellFormed(t.(items := t.items[key := item]), cat,
                          (if cat in t.lists then t.lists[cat] else []) + [key]);
  }

  lemma RemoveEverywhereEffect(t: Tables, key: string)
    requires WellFormed(t)
    ensures var r := RemoveEverywhere(t, key);
      && WellFormed(r) && r.order == t.order && r.items == t.items
      && r.lists.Keys == t.lists.Keys
      && (forall c :: c in t.lists ==> r.lists[c] == RemoveFirst(t.lists[c], key))
  {
  }

  /** Removal from lists without duplicates leaves none and clears the key. */
  lemma RemoveEverywhereClears(t: Tables, key: string)
    requires NoDuplicates(t)
    ensures var r := RemoveEverywhere(t, key);
      forall c :: c in r.lists ==> Distinct(r.lists[c]) && key !in r.lists[c]
  {
    forall c | c in t.lists
      ensures Distinct(RemoveFirst(t.lists[c], key)) && key !in RemoveFirst(t.lists[c], key)
    {
      RemoveFirstDistinct(t.lists[c], key);
    }
  }

  /** Removal only ever drops keys from a list. */
  lemma RemoveEverywhereShrinks(t: Tables, key: string)
    ensures var r := RemoveEverywhere(t, key);
      forall c, k :: c in r.lists && k in r.lists[c] ==> k in t.lists[c]
  {
    forall c, k | c in t.lists && k in RemoveFirst(t.lists[c], key) ensures k in t.lists[c] {
      RemoveFirstCount(t.lists[c], key);
      assert k in multiset(RemoveFirst(t.lists[c], key));
    }
  }

  /**
   * Moving an item: every list loses its first occurrence of `key`, then
   * `key` ends the target list (created when absent); ITEMS is unchanged.
   */
  lemma MoveItemEffect(t: Tables, key: string, cat: string)
    requires WellFormed(t)
    ensures var r := MoveItem(t, key, cat);
      && WellFormed(r)
      && r.order == (if cat in t.lists then t.order else t.order + [cat])
      && r.items == t.items
      && r.lists.Keys == t.lists.Keys + {cat}
      && (forall c :: c in t.lists && c != cat ==> r.lists[c] == RemoveFirst(t.lists[c], key))
      && r.lists[cat] == (if cat in t.lists then RemoveFirst(t.lists[cat], key) else []) + [key]
  {
    RemoveEverywhereEffect(t, key);
    var s := RemoveEverywhere(t, key);
    SetCategoryWellFormed(s, cat, (if cat in s.lists then s.lists[cat] else []) + [key]);
  }

  /** Without duplicates beforehand, a moved item has exactly one category, the target. */
  lemma MoveItemSingleHome(t: Tables, key: string, cat: string)
    requires WellFormed(t) && NoDuplicates(t)
    ensures var r := MoveItem(t, key, cat);
      NoDuplicates(r) && Homes(r, key) == {cat}
  {
    RemoveEverywhereClears(t, key);
    var s := RemoveEverywhere(t, key);
    var prior := if cat in s.lists then s.lists[cat] else [];
    DistinctSnoc(prior, key);
    var r := MoveItem(t, key, cat);
    assert r.lists == s.lists[cat := prior + [key]];
    HomesExactly(r, key, {cat});
  }

  lemma HomesExactly(r: Tables, key: string, cs: set<string>)
    requires cs <= r.lists.Keys
    requires forall c :: c in r.lists ==> (key in r.lists[c] <==> c in cs)
    ensures Homes(r, key) == cs
  {
  }

  /** Moving an item that exists keeps referential integrity. */
  lemma MoveItemReferenced(t: Tables, key: string, cat: string)
    requires WellFormed(t) && Referenced(t) && key in t.items
    ensures Referenced(MoveItem(t, key, cat))
  {
    RemoveEverywhereShrinks(t, key);
  }

  lemma DistinctSnoc<T>(s: seq<T>, a: T)
    requires a !in s && Distinct(s)
    ensures Distinct(s + [a])
  {
  }

  /**
   * Deleting an item: it leaves ITEMS, the other items are unchanged, and every
   * list loses its first occurrence of the key.
   */
  lemma DeleteItemEffect(t: Tables, key: string)
    requires WellFormed(t)
    ensures var r := DeleteItem(t, key);
      && WellFormed(r)
      && r.order == t.order
      && r.items == t.items - {key}
      && key !in r.items
      && r.lists.Keys == t.lists.Keys
      && (forall c :: c in t.lists ==> r.lists[c] == RemoveFirst(t.lists[c], key))
  {
    RemoveEverywhereEffect(t.(items := t.items - {key}), key);
  }

  /**
   * Without duplicates beforehand no category lists a deleted item afterwards,
   * so referential integrity is kept.
   */
  lemma DeleteItemClearsReferences(t: Tables, key: string)
    requires WellFormed(t) && NoDuplicates(t)
    ensures var r := DeleteItem(t, key);
      && NoDuplicates(r) && Homes(r, key) == {}
      && (Referenced(t) ==> Referenced(r))
  {
    var u := t.(items := t.items - {key});
    RemoveEverywhereClears(u, key);
    RemoveEverywhereShrinks(u, key);
    var r := DeleteItem(t, key);
    HomesExactly(r, key, {});
    if Referenced(t) {
      forall c, k | c in r.lists && k in r.lists[c] ensures k in r.items {
        assert k in t.lists[c];
      }
    }
  }

  /** With a duplicate, deleting the item leaves a category listing a key that ITEMS no longer has. */
  lemma DeleteItemLeavesDuplicate(t: Tables, key: string, cat: string)
    requires cat in t.lists && multiset(t.lists[cat])[key] >= 2
    ensures var r := DeleteItem(t, key);
      key !in r.items && cat in r.lists && key in r.lists[cat] && !Referenced(r)
  {
    var r := DeleteItem(t, key);
    RemoveFirstCount(t.lists[cat], key);
    assert multiset(r.lists[cat])[key] >= 1;
  }

  /** The add-item commit run twice with the same buffers lists the key twice. */
  lemma RepeatedCommitDuplicates(t: Tables, key: string, item: Item, cat: string)
    ensures var r := AddItem(AddItem(t, key, item, cat), key, item, cat);
      cat in r.lists && multiset(r.lists[cat])[key] >= 2
  {
    var once := AddItem(t, key, item, cat);
    var l := once.lists[cat];
    assert AddItem(once, key, item, cat).lists[cat] == l + [key];
    assert l == (if cat in t.lists then t.lists[cat] else []) + [key];
    assert multiset(l + [key])[key] == multiset(l)[key] + 1;
  }

  // ---------- The catalog the bot starts from ----------

  /** DEFAULT_CATEGORIES and DEFAULT_ITEMS. */
  function DefaultTables(): Tables {
    Tables(
      ["ebooks", "videos", "templates"],
      map["ebooks" := ["ebook_python"], "videos" := ["video_git"], "templates" := ["template_resume"]],
      map[
        "ebook_python" := Item("Python Basics eBook", 0.00005, "items/python_basics.pdf", map[]),
        "video_git" := Item("Git & GitHub Tutorial (MP4)", 0.00008, "items/git_tutorial.mp4", map[]),
        "template_resume" := Item("Professional Resume Template", 0.00002, "items/resume_template.docx", map[])
      ])
  }

  /** The default catalog is consistent: every listed key is an item, prices are positive. */
  lemma DefaultsConsistent()
    ensures var t := DefaultTables();
      WellFormed(t) && Referenced(t) && NoDuplicates(t)
      && forall k :: k in t.items ==> t.items[k].priceBtc > 0.0
  {
    var t := DefaultTables();
    assert forall c :: c in t.lists ==> |t.lists[c]| == 1;
  }
}
