/**
 * The admin handlers. Each reads the pressed button's payload or the typed
 * text, may update the catalog and the user's edit buffers, and returns the
 * next conversation state. A handler that raises leaves the state as it was;
 * several text handlers raise only after they have updated the catalog,
 * because the screen they end with needs a pressed button. Each handler is a
 * `Step` function on values, and a method that updates the store and the
 * session exactly as that function says.
 */
module AdminFlow {
  import opened Wrappers
  import opened Text
  import Callbacks
  import opened Catalog
  import opened Store
  import opened Sessions

  /**
   * What the handlers learn from outside: the paths `os.path.exists`
   * accepts, and what `float(text)` gives (`None` when it raises).
   */
  datatype Environment = Environment(files: set<string>, parseFloat: string -> Option<real>)

  /** What a handler leaves: the catalog, the user's buffers, and the state it returned (`None` when it raised). */
  datatype Step = Step(tables: Tables, buffers: Buffers, next: Option<State>)

  // ---------- Categories ----------

  /**
   * admin_cat_add_receive: a new key must be alphanumeric once stripped and
   * lower-cased, and unused. After the category is added the closing screen
   * is built from a stand-in object with no pressed button, which raises.
   */
  function CatAddReceiveStep(t: Tables, b: Buffers, text: string): (r: Step)
    ensures r.buffers == b
    ensures r.next == Some(CategoryAdd) ==> r.tables == t
    ensures r.tables != t ==> r.next == None
  {
    var key := Normalize(text);
    if !IsAlnum(key) || key in t.lists then Step(t, b, Some(CategoryAdd))
    else Step(AddCategory(t, key), b, None)
  }

  method CatAddReceive(store: CatalogStore, session: Session, text: string) returns (next: Option<State>)
    requires store.Valid()
    modifies store
    ensures store.Valid()
    ensures var s := CatAddReceiveStep(old(store.Snapshot()), session.buffers, text);
      store.Snapshot() == s.tables && next == s.next
  {
    var key := Normalize(text);
    if !IsAlnum(key) {
      return Some(CategoryAdd);
    }
    if key in store.lists {
      return Some(CategoryAdd);
    }
    store.AddCategory(key);
    return None;
  }

  /** admin_cat_edit_start: remember the category named by the fourth payload part, if it exists. */
  function CatEditStartStep(t: Tables, b: Buffers, data: string): (r: Step)
    ensures r.tables == t && r.next.Some?
  {
    var key := Callbacks.ArgAt3(data);
    if key.Some? && key.value in t.lists then Step(t, b.(editCategoryKey := key), Some(CategoryEditKey))
    else Step(t, b, Some(CategoryMenu))
  }

  method CatEditStart(store: CatalogStore, session: Session, data: string) returns (next: State)
    modifies session`buffers
    ensures var s := CatEditStartStep(store.Snapshot(), old(session.buffers), data);
      session.buffers == s.buffers && Some(next) == s.next
  {
    var key := Callbacks.ArgAt3(data);
    if key.None? {
      return CategoryMenu;
    }
    if key.value !in store.lists {
      return CategoryMenu;
    }
    session.buffers := session.buffers.(editCategoryKey := key);
    return CategoryEditKey;
  }

  /**
   * admin_cat_edit_receive: rename the remembered category. A new key that
   * is not alphanumeric or is already a category (itself included) is
   * refused. With no category remembered, or one that is gone, and after a
   * rename, the closing screen needs a pressed button and raises.
   */
  function CatEditReceiveStep(t: Tables, b: Buffers, text: string): (r: Step)
    ensures r.buffers == b
    ensures r.next == Some(CategoryEditKey) ==> r.tables == t
    ensures r.tables != t ==> r.next == None
  {
    var newKey := Normalize(text);
    var oldKey := b.editCategoryKey;
    if !Truthy(oldKey) || oldKey.value !in t.lists then Step(t, b, None)
    else if !IsAlnum(newKey) || newKey in t.lists then Step(t, b, Some(CategoryEditKey))
    else Step(RenameCategory(t, oldKey.value, newKey), b, None)
  }

  method CatEditReceive(store: CatalogStore, session: Session, text: string) returns (next: Option<State>)
    requires store.Valid()
    modifies store
    ensures store.Valid()
    ensures var s := CatEditReceiveStep(old(store.Snapshot()), session.buffers, text);
      store.Snapshot() == s.tables && next == s.next
  {
    var newKey := Normalize(text);
    var oldKey := session.buffers.editCategoryKey;
    if !Truthy(oldKey) || oldKey.value !in store.lists {
      return None;
    }
    if !IsAlnum(newKey) {
      return Some(CategoryEditKey);
    }
    if newKey in store.lists {
      return Some(CategoryEditKey);
    }
    store.RenameCategory(oldKey.value, newKey);
    return None;
  }

  /** admin_cat_delete_confirm: remember a non-empty, existing category key for the confirmation. */
  function CatDeleteConfirmStep(t: Tables, b: Buffers, data: string): (r: Step)
    ensures r.tables == t && r.next.Some?
  {
    var key := Callbacks.ArgAt3(data);
    if Truthy(key) && key.value in t.lists then
      Step(t, b.(deleteCategoryKey := key), Some(State.CategoryDeleteConfirm))
    else Step(t, b, Some(CategoryMenu))
  }

  method CatDeleteConfirm(store: CatalogStore, session: Session, data: string) returns (next: State)
    modifies session`buffers
    ensures var s := CatDeleteConfirmStep(store.Snapshot(), old(session.buffers), data);
      session.buffers == s.buffers && Some(next) == s.next
  {
    var key := Callbacks.ArgAt3(data);
    if !Truthy(key) || key.value !in store.lists {
      return CategoryMenu;
    }
    session.buffers := session.buffers.(deleteCategoryKey := key);
    return State.CategoryDeleteConfirm;
  }

  /** admin_cat_delete_execute: delete the remembered category; its items stay in ITEMS. */
  function CatDeleteExecuteStep(t: Tables, b: Buffers): (r: Step)
    ensures r.buffers == b && r.next == Some(CategoryMenu)
  {
    var key := b.deleteCategoryKey;
    if Truthy(key) then Step(DeleteCategory(t, key.value), b, Some(CategoryMenu))
    else Step(t, b, Some(CategoryMenu))
  }

  method CatDeleteExecute(store: CatalogStore, session: Session) returns (next: State)
    requires store.Valid()
    modifies store
    ensures store.Valid()
    ensures var s := CatDeleteExecuteStep(old(store.Snapshot()), session.buffers);
      store.Snapshot() == s.tables && Some(next) == s.next
  {
    var key := session.buffers.deleteCategoryKey;
    if !Truthy(key) {
      return CategoryMenu;
    }
    store.DeleteCategory(key.value);
    return CategoryMenu;
  }

  // ---------- Adding an item ----------

  /** admin_item_add_key_received: the key must be alphanumeric once normalised and not an item yet. */
  function ItemAddKeyReceivedStep(t: Tables, b: Buffers, text: string): (r: Step)
    ensures r.tables == t
    ensures r.next == Some(ItemAddKey) ==> r.buffers == b
  {
    var key := Normalize(text);
    if !IsAlnum(key) || key in t.items then Step(t, b, Some(ItemAddKey))
    else Step(t, b.(newItemKey := Some(key)), Some(ItemAddName))
  }

  method ItemAddKeyReceived(store: CatalogStore, session: Session, text: string) returns (next: State)
    modifies session`buffers
    ensures var s := ItemAddKeyReceivedStep(store.Snapshot(), old(session.buffers), text);
      session.buffers == s.buffers && Some(next) == s.next
  {
    var key := Normalize(text);
    if !IsAlnum(key) {
      return ItemAddKey;
    }
    if key in store.items {
      return ItemAddKey;
    }
    session.buffers := session.buffers.(newItemKey := Some(key));
    return ItemAddName;
  }

  /** admin_item_add_name_received: any stripped text is accepted as the name. */
  function ItemAddNameReceivedStep(t: Tables, b: Buffers, text: string): (r: Step)
    ensures r.tables == t && r.next == Some(ItemAddPrice)
  {
    Step(t, b.(newItemName := Some(Strip(text))), Some(ItemAddPrice))
  }

  method ItemAddNameReceived(store: CatalogStore, session: Session, text: string) returns (next: State)
    modifies session`buffers
    ensures var s := ItemAddNameReceivedStep(store.Snapshot(), old(session.buffers), text);
      session.buffers == s.buffers && Some(next) == s.next
  {
    session.buffers := session.buffers.(newItemName := Some(Strip(text)));
    return ItemAddPrice;
  }

  /** admin_item_add_price_received: the stripped text must parse to a positive number. */
  function ItemAddPriceReceivedStep(t: Tables, b: Buffers, text: string, env: Environment): (r: Step)
    ensures r.tables == t
    ensures r.next == Some(ItemAddPrice) ==> r.buffers == b
  {
    var price := env.parseFloat(Strip(text));
    if price.None? || price.value <= 0.0 then Step(t, b, Some(ItemAddPrice))
    else Step(t, b.(newItemPrice := price), Some(ItemAddPath))
  }

  method ItemAddPriceReceived(store: CatalogStore, session: Session, text: string, env: Environment)
    returns (next: State)
    modifies session`buffers
    ensures var s := ItemAddPriceReceivedStep(store.Snapshot(), old(session.buffers), text, env);
      session.buffers == s.buffers && Some(next) == s.next
  {
    var price := env.parseFloat(Strip(text));
    if price.None? || price.value <= 0.0 {
      return ItemAddPrice;
    }
    session.buffers := session.buffers.(newItemPrice := price);
    return ItemAddPath;
  }

  /** admin_item_add_path_received: the stripped path must exist. */
  function ItemAddPathReceivedStep(t: Tables, b: Buffers, text: string, env: Environment): (r: Step)
    ensures r.tables == t
    ensures r.next == Some(ItemAddPath) ==> r.buffers == b
  {
    var path := Strip(text);
    if path !in env.files then Step(t, b, Some(ItemAddPath))
    else Step(t, b.(newItemPath := Some(path)), Some(ItemAddCategory))
  }

  method ItemAddPathReceived(store: CatalogStore, session: Session, text: string, env: Environment)
    returns (next: State)
    modifies session`buffers
    ensures var s := ItemAddPathReceivedStep(store.Snapshot(), old(session.buffers), text, env);
      session.buffers == s.buffers && Some(next) == s.next
  {
    var path := Strip(text);
    if path !in env.files {
      return ItemAddPath;
    }
    session.buffers := session.buffers.(newItemPath := Some(path));
    return ItemAddCategory;
  }

  /** The four add-item buffers, all truthy: key, name and path non-empty, price non-zero. */
  predicate ReadyToCommit(b: Buffers) {
    Truthy(b.newItemKey) && Truthy(b.newItemName) && b.newItemPrice.Some? && b.newItemPrice.value != 0.0
    && Truthy(b.newItemPath)
  }

  /** The record the add-item buffers describe. */
  function BufferedItem(b: Buffers): Item
    requires ReadyToCommit(b)
  {
    Item(b.newItemName.value, b.newItemPrice.value, b.newItemPath.value, map[])
  }

  /**
   * admin_item_add_category_selected: commit the buffered item into the
   * category named by the third payload part, creating that category when
   * absent. The key is not checked against ITEMS again, and the buffers are
   * kept. Raises when the payload has fewer than three parts (the unpacking
   * fails).
   */
  function ItemAddCategorySelectedStep(t: Tables, b: Buffers, data: string): (r: Step)
    ensures r.buffers == b
    ensures r.next.None? <==> data != "admin:cat:add" && Callbacks.AssignArg(data).None?
  {
    if data == "admin:cat:add" then Step(t, b, Some(CategoryAdd))
    else if Callbacks.AssignArg(data).None? then Step(t, b, None)
    else if !ReadyToCommit(b) then Step(t, b, Some(ItemMenu))
    else Step(AddItem(t, b.newItemKey.value, BufferedItem(b), Callbacks.AssignArg(data).value), b, Some(ItemMenu))
  }

  method ItemAddCategorySelected(store: CatalogStore, session: Session, data: string) returns (next: Option<State>)
    requires store.Valid()
    modifies store
    ensures store.Valid()
    ensures var s := ItemAddCategorySelectedStep(old(store.Snapshot()), session.buffers, data);
      store.Snapshot() == s.tables && next == s.next
  {
    if data == "admin:cat:add" {
      return Some(CategoryAdd);
    }
    var cat := Callbacks.AssignArg(data);
    if cat.None? {
      return None;
    }
    var b := session.buffers;
    if !ReadyToCommit(b) {
      return Some(ItemMenu);
    }
    store.AddItem(b.newItemKey.value, BufferedItem(b), cat.value);
    return Some(ItemMenu);
  }

  // ---------- Editing an item ----------

  /** admin_item_edit_start: remember the item named by the fourth payload part, if it exists. */
  function ItemEditStartStep(t: Tables, b: Buffers, data: string): (r: Step)
    ensures r.tables == t && r.next.Some?
  {
    var key := Callbacks.ArgAt3(data);
    if key.Some? && key.value in t.items then Step(t, b.(editItemKey := key), Some(ItemEditSelect))
    else Step(t, b, Some(ItemMenu))
  }

  method ItemEditStart(store: CatalogStore, session: Session, data: string) returns (next: State)
    modifies session`buffers
    ensures var s := ItemEditStartStep(store.Snapshot(), old(session.buffers), data);
      session.buffers == s.buffers && Some(next) == s.next
  {
    var key := Callbacks.ArgAt3(data);
    if key.None? {
      return ItemMenu;
    }
    if key.value !in store.items {
      return ItemMenu;
    }
    session.buffers := session.buffers.(editItemKey := key);
    return ItemEditSelect;
  }

  /**
   * admin_item_field_select: remember the field named by the last payload
   * part. The next state is the corrected one (see `FieldSelectState`).
   */
  function ItemFieldSelectStep(t: Tables, b: Buffers, data: string): (r: Step)
    ensures r.tables == t && r.next.Some?
  {
    var field := Callbacks.LastArg(data);
    Step(t, b.(editField := Some(field)), Some(FieldSelectState(field)))
  }

  method ItemFieldSelect(store: CatalogStore, session: Session, data: string) returns (next: State)
    modifies session`buffers
    ensures var s := ItemFieldSelectStep(store.Snapshot(), old(session.buffers), data);
      session.buffers == s.buffers && Some(next) == s.next
    ensures TextHandlerFor(next) == Some(FieldValueText) <==> Callbacks.LastArg(data) != "category"
  {
    var field := Callbacks.LastArg(data);
    session.buffers := session.buffers.(editField := Some(field));
    next := FieldSelectState(field);
  }

  /**
   * admin_item_field_value_received: set one field of the remembered item.
   * `price_btc` must parse to a positive number and `file_path` must exist;
   * a rejected value keeps the state and changes nothing. Any other field
   * takes the stripped text as it is. Raises before any update when the
   * remembered item is no longer in ITEMS, and after the update because the
   * closing screen needs a pressed button; with no item or field remembered
   * it raises at once.
   */
  function ItemFieldValueReceivedStep(t: Tables, b: Buffers, text: string, env: Environment): (r: Step)
    ensures r.buffers == b
    ensures r.next == Some(ItemEditFieldValue) ==> r.tables == t
    ensures r.tables != t ==> r.next == None
  {
    var key, field, value := b.editItemKey, b.editField, Strip(text);
    if !Truthy(key) || !Truthy(field) then Step(t, b, None)
    else if field.value == "price_btc" then
      var price := env.parseFloat(value);
      if price.None? || price.value <= 0.0 then Step(t, b, Some(ItemEditFieldValue))
      else if key.value !in t.items then Step(t, b, None)
      else Step(PutItem(t, key.value, t.items[key.value].(priceBtc := price.value)), b, None)
    else if field.value == "file_path" && value !in env.files then Step(t, b, Some(ItemEditFieldValue))
    else if key.value !in t.items then Step(t, b, None)
    else Step(PutItem(t, key.value, WithTextField(t.items[key.value], field.value, value)), b, None)
  }

  method ItemFieldValueReceived(store: CatalogStore, session: Session, text: string, env: Environment)
    returns (next: Option<State>)
    requires store.Valid()
    modifies store
    ensures store.Valid()
    ensures var s := ItemFieldValueReceivedStep(old(store.Snapshot()), session.buffers, text, env);
      store.Snapshot() == s.tables && next == s.next
  {
    var key, field := session.buffers.editItemKey, session.buffers.editField;
    if !Truthy(key) || !Truthy(field) {
      return None;
    }
    var value := Strip(text);
    if field.value == "price_btc" {
      var price := env.parseFloat(value);
      if price.None? || price.value <= 0.0 {
        return Some(ItemEditFieldValue);
      }
      if key.value !in store.items {
        return None;
      }
      store.SetPrice(key.value, price.value);
    } else if field.value == "file_path" {
      if value !in env.files {
        return Some(ItemEditFieldValue);
      }
      if key.value !in store.items {
        return None;
      }
      store.SetTextField(key.value, field.value, value);
    } else {
      if key.value !in store.items {
        return None;
      }
      store.SetTextField(key.value, field.value, value);
    }
    return None;
  }

  /**
   * admin_item_move_category: move the remembered item to the category
   * named by the last payload part, creating it when absent.
   */
  function ItemMoveCategoryStep(t: Tables, b: Buffers, data: string): (r: Step)
    ensures r.buffers == b && r.next == Some(ItemMenu)
  {
    var key := b.editItemKey;
    if key.Some? then Step(MoveItem(t, key.value, Callbacks.LastArg(data)), b, Some(ItemMenu))
    else Step(t, b, Some(ItemMenu))
  }

  method ItemMoveCategory(store: CatalogStore, session: Session, data: string) returns (next: State)
    requires store.Valid()
    modifies store
    ensures store.Valid()
    ensures var s := ItemMoveCategoryStep(old(store.Snapshot()), session.buffers, data);
      store.Snapshot() == s.tables && Some(next) == s.next
  {
    var key := session.buffers.editItemKey;
    if key.Some? {
      store.MoveItem(key.value, Callbacks.LastArg(data));
    }
    return ItemMenu;
  }

  // ---------- Deleting an item ----------

  /** admin_item_delete_confirm: remember a non-empty, existing item key for the confirmation. */
  function ItemDeleteConfirmStep(t: Tables, b: Buffers, data: string): (r: Step)
    ensures r.tables == t && r.next.Some?
  {
    var key := Callbacks.ArgAt3(data);
    if Truthy(key) && key.value in t.items then
      Step(t, b.(deleteItemKey := key), Some(State.ItemDeleteConfirm))
    else Step(t, b, Some(ItemMenu))
  }

  method ItemDeleteConfirm(store: CatalogStore, session: Session, data: string) returns (next: State)
    modifies session`buffers
    ensures var s := ItemDeleteConfirmStep(store.Snapshot(), old(session.buffers), data);
      session.buffers == s.buffers && Some(next) == s.next
  {
    var key := Callbacks.ArgAt3(data);
    if !Truthy(key) || key.value !in store.items {
      return ItemMenu;
    }
    session.buffers := session.buffers.(deleteItemKey := key);
    return State.ItemDeleteConfirm;
  }

  /** admin_item_delete_execute: delete the remembered item, only if it is still in ITEMS. */
  function ItemDeleteExecuteStep(t: Tables, b: Buffers): (r: Step)
    ensures r.buffers == b && r.next == Some(ItemMenu)
  {
    var key := b.deleteItemKey;
    if Truthy(key) && key.value in t.items then Step(DeleteItem(t, key.value), b, Some(ItemMenu))
    else Step(t, b, Some(ItemMenu))
  }

  method ItemDeleteExecute(store: CatalogStore, session: Session) returns (next: State)
    requires store.Valid()
    modifies store
    ensures store.Valid()
    ensures var s := ItemDeleteExecuteStep(old(store.Snapshot()), session.buffers);
      store.Snapshot() == s.tables && Some(next) == s.next
  {
    var key := session.buffers.deleteItemKey;
    if !Truthy(key) || key.value !in store.items {
      return ItemMenu;
    }
    store.DeleteItem(key.value);
    return ItemMenu;
  }

  // ---------- The catalog invariants each handler keeps ----------

  /** Adding a category keeps the key order consistent, every listed item existing, and no list holding a key twice. */
  lemma CatAddReceiveKeeps(t: Tables, b: Buffers, text: string)
    requires WellFormed(t)
    ensures var r := CatAddReceiveStep(t, b, text).tables;
      WellFormed(r) && (Referenced(t) ==> Referenced(r)) && (NoDuplicates(t) ==> NoDuplicates(r))
  {
    var key := Normalize(text);
    if IsAlnum(key) && key !in t.lists {
      AddCategoryEffect(t, key);
    }
  }

  /** Renaming a category keeps the same three invariants. */
  lemma CatEditReceiveKeeps(t: Tables, b: Buffers, text: string)
    requires WellFormed(t)
    ensures var r := CatEditReceiveStep(t, b, text).tables;
      WellFormed(r) && (Referenced(t) ==> Referenced(r)) && (NoDuplicates(t) ==> NoDuplicates(r))
  {
    var newKey, oldKey := Normalize(text), b.editCategoryKey;
    if Truthy(oldKey) && oldKey.value in t.lists && IsAlnum(newKey) && newKey !in t.lists {
      RenameCategoryEffect(t, oldKey.value, newKey);
    }
  }

  /** Editing a field of an existing item leaves CATEGORIES and the set of item keys as they were. */
  lemma ItemFieldValueReceivedKeeps(t: Tables, b: Buffers, text: string, env: Environment)
    ensures var r := ItemFieldValueReceivedStep(t, b, text, env).tables;
      r.order == t.order && r.lists == t.lists && r.items.Keys == t.items.Keys
  {
  }

  /** Deleting the remembered category keeps the three invariants. */
  lemma CatDeleteExecuteKeeps(t: Tables, b: Buffers)
    requires WellFormed(t)
    ensures var r := CatDeleteExecuteStep(t, b).tables;
      WellFormed(r) && (Referenced(t) ==> Referenced(r)) && (NoDuplicates(t) ==> NoDuplicates(r))
  {
    if Truthy(b.deleteCategoryKey) {
      DeleteCategoryEffect(t, b.deleteCategoryKey.value);
    }
  }

  /**
   * Deleting the remembered item keeps the key order consistent and, when no
   * list held a key twice, leaves every listed item existing.
   */
  lemma ItemDeleteExecuteKeeps(t: Tables, b: Buffers)
    requires WellFormed(t)
    ensures var r := ItemDeleteExecuteStep(t, b).tables;
      WellFormed(r) && (NoDuplicates(t) ==> NoDuplicates(r) && (Referenced(t) ==> Referenced(r)))
  {
    var key := b.deleteItemKey;
    if Truthy(key) && key.value in t.items {
      DeleteItemEffect(t, key.value);
      if NoDuplicates(t) {
        DeleteItemClearsReferences(t, key.value);
      }
    }
  }

  /** Moving the remembered item keeps the key order consistent. */
  lemma ItemMoveCategoryKeeps(t: Tables, b: Buffers, data: string)
    requires WellFormed(t)
    ensures WellFormed(ItemMoveCategoryStep(t, b, data).tables)
  {
    if b.editItemKey.Some? {
      MoveItemEffect(t, b.editItemKey.value, Callbacks.LastArg(data));
    }
  }

  /** Committing the buffered item keeps the key order consistent and every listed item existing. */
  lemma ItemAddCategorySelectedKeeps(t: Tables, b: Buffers, data: string)
    requires WellFormed(t)
    ensures var r := ItemAddCategorySelectedStep(t, b, data).tables;
      WellFormed(r) && (Referenced(t) ==> Referenced(r))
  {
    if data != "admin:cat:add" && Callbacks.AssignArg(data).Some? && ReadyToCommit(b) {
      AddItemEffect(t, b.newItemKey.value, BufferedItem(b), Callbacks.AssignArg(data).value);
    }
  }

  // ---------- Whole flows ----------

  /**
   * Adding an item through the conversation: a fresh alphanumeric key, a
   * non-empty name, a positive price, an existing non-empty path and a
   * category button commit exactly that record under that key, and each
   * step moves to the next state of the flow.
   */
  lemma AddItemConversation(t: Tables, b: Buffers, keyText: string, nameText: string, priceText: string,
                            pathText: string, data: string, env: Environment)
    requires IsAlnum(Normalize(keyText)) && Normalize(keyText) !in t.items
    requires Strip(nameText) != ""
    requires env.parseFloat(Strip(priceText)).Some? && env.parseFloat(Strip(priceText)).value > 0.0
    requires Strip(pathText) != "" && Strip(pathText) in env.files
    requires data != "admin:cat:add" && Callbacks.AssignArg(data).Some?
    ensures var s1 := ItemAddKeyReceivedStep(t, b, keyText);
      var s2 := ItemAddNameReceivedStep(s1.tables, s1.buffers, nameText);
      var s3 := ItemAddPriceReceivedStep(s2.tables, s2.buffers, priceText, env);
      var s4 := ItemAddPathReceivedStep(s3.tables, s3.buffers, pathText, env);
      var s5 := ItemAddCategorySelectedStep(s4.tables, s4.buffers, data);
      && s1.next == Some(ItemAddName) && s2.next == Some(ItemAddPrice) && s3.next == Some(ItemAddPath)
      && s4.next == Some(ItemAddCategory) && s5.next == Some(ItemMenu)
      && s4.tables == t
      && s5.tables == AddItem(t, Normalize(keyText),
           Item(Strip(nameText), env.parseFloat(Strip(priceText)).value, Strip(pathText), map[]),
           Callbacks.AssignArg(data).value)
  {
    var b1 := b.(newItemKey := Some(Normalize(keyText)));
    var b2 := b1.(newItemName := Some(Strip(nameText)));
    var b3 := b2.(newItemPrice := env.parseFloat(Strip(priceText)));
    var b4 := b3.(newItemPath := Some(Strip(pathText)));
    AddItemSteps(t, b, keyText, nameText, priceText, pathText, env);
    assert Truthy(b4.newItemKey);
    assert Truthy(b4.newItemName);
    assert b4.newItemPrice.Some? && b4.newItemPrice.value != 0.0;
    assert Truthy(b4.newItemPath);
    CommitStep(t, b4, data);
  }

  /** The four text steps of the add-item flow, each accepted, fill the four buffers in turn. */
  lemma AddItemSteps(t: Tables, b: Buffers, keyText: string, nameText: string, priceText: string,
                     pathText: string, env: Environment)
    requires IsAlnum(Normalize(keyText)) && Normalize(keyText) !in t.items
    requires env.parseFloat(Strip(priceText)).Some? && env.parseFloat(Strip(priceText)).value > 0.0
    requires Strip(pathText) in env.files
    ensures var b1 := b.(newItemKey := Some(Normalize(keyText)));
      var b2 := b1.(newItemName := Some(Strip(nameText)));
      var b3 := b2.(newItemPrice := env.parseFloat(Strip(priceText)));
      var b4 := b3.(newItemPath := Some(Strip(pathText)));
      && ItemAddKeyReceivedStep(t, b, keyText) == Step(t, b1, Some(ItemAddName))
      && ItemAddNameReceivedStep(t, b1, nameText) == Step(t, b2, Some(ItemAddPrice))
      && ItemAddPriceReceivedStep(t, b2, priceText, env) == Step(t, b3, Some(ItemAddPath))
      && ItemAddPathReceivedStep(t, b3, pathText, env) == Step(t, b4, Some(ItemAddCategory))
  {
    var b1 := b.(newItemKey := Some(Normalize(keyText)));
    var b2 := b1.(newItemName := Some(Strip(nameText)));
    var b3 := b2.(newItemPrice := env.parseFloat(Strip(priceText)));
    KeyAccepted(t, b, keyText);
    PriceAccepted(t, b2, priceText, env);
    PathAccepted(t, b3, pathText, env);
  }

  lemma KeyAccepted(t: Tables, b: Buffers, text: string)
    requires IsAlnum(Normalize(text)) && Normalize(text) !in t.items
    ensures ItemAddKeyReceivedStep(t, b, text) == Step(t, b.(newItemKey := Some(Normalize(text))), Some(ItemAddName))
  {
  }

  lemma PriceAccepted(t: Tables, b: Buffers, text: string, env: Environment)
    requires env.parseFloat(Strip(text)).Some? && env.parseFloat(Strip(text)).value > 0.0
    ensures ItemAddPriceReceivedStep(t, b, text, env)
      == Step(t, b.(newItemPrice := env.parseFloat(Strip(text))), Some(ItemAddPath))
  {
    var price := env.parseFloat(Strip(text));
    assert !(price.None? || price.value <= 0.0);
  }

  lemma PathAccepted(t: Tables, b: Buffers, text: string, env: Environment)
    requires Strip(text) in env.files
    ensures ItemAddPathReceivedStep(t, b, text, env) == Step(t, b.(newItemPath := Some(Strip(text))), Some(ItemAddCategory))
  {
  }

  /** A category button with every buffer filled commits the buffered record. */
  lemma CommitStep(t: Tables, b: Buffers, data: string)
    requires ReadyToCommit(b)
    requires data != "admin:cat:add" && Callbacks.AssignArg(data).Some?
    ensures ItemAddCategorySelectedStep(t, b, data)
      == Step(AddItem(t, b.newItemKey.value, BufferedItem(b), Callbacks.AssignArg(data).value), b, Some(ItemMenu))
  {
  }

  /**
   * Renaming through the conversation: the edit button of an existing,
   * non-empty category key and then a fresh alphanumeric key rename exactly
   * that category. The rename then raises, so the state stays.
   */
  lemma RenameConversation(t: Tables, b: Buffers, data: string, text: string)
    requires Truthy(Callbacks.ArgAt3(data)) && Callbacks.ArgAt3(data).value in t.lists
    requires IsAlnum(Normalize(text)) && Normalize(text) !in t.lists
    ensures var s1 := CatEditStartStep(t, b, data);
      var s2 := CatEditReceiveStep(s1.tables, s1.buffers, text);
      && s1.next == Some(CategoryEditKey) && s2.next == None
      && s2.tables == RenameCategory(t, Callbacks.ArgAt3(data).value, Normalize(text))
  {
  }

  /** Deleting a category: its delete button and then "Yes" delete exactly that category. */
  lemma DeleteCategoryConversation(t: Tables, b: Buffers, data: string)
    requires Truthy(Callbacks.ArgAt3(data)) && Callbacks.ArgAt3(data).value in t.lists
    ensures var s1 := CatDeleteConfirmStep(t, b, data);
      var s2 := CatDeleteExecuteStep(s1.tables, s1.buffers);
      && s1.next == Some(State.CategoryDeleteConfirm) && s2.next == Some(CategoryMenu)
      && s2.tables == DeleteCategory(t, Callbacks.ArgAt3(data).value)
  {
  }

  /** Deleting an item: its delete button and then "Yes" delete exactly that item. */
  lemma DeleteItemConversation(t: Tables, b: Buffers, data: string)
    requires Truthy(Callbacks.ArgAt3(data)) && Callbacks.ArgAt3(data).value in t.items
    ensures var s1 := ItemDeleteConfirmStep(t, b, data);
      var s2 := ItemDeleteExecuteStep(s1.tables, s1.buffers);
      && s1.next == Some(State.ItemDeleteConfirm) && s2.next == Some(ItemMenu)
      && s2.tables == DeleteItem(t, Callbacks.ArgAt3(data).value)
  {
  }

  /**
   * Editing a text field: the item's edit button, a field button other than
   * `category` and `price_btc`, and a value (an existing path for
   * `file_path`) set exactly that field of exactly that item, once the field
   * button leads to the value state as intended.
   */
  lemma EditFieldConversation(t: Tables, b: Buffers, editData: string, fieldData: string, text: string,
                              env: Environment)
    requires Truthy(Callbacks.ArgAt3(editData)) && Callbacks.ArgAt3(editData).value in t.items
    requires var field := Callbacks.LastArg(fieldData);
      field != "" && field != "category" && field != "price_btc"
      && (field == "file_path" ==> Strip(text) in env.files)
    ensures var key, field := Callbacks.ArgAt3(editData).value, Callbacks.LastArg(fieldData);
      var s1 := ItemEditStartStep(t, b, editData);
      var s2 := ItemFieldSelectStep(s1.tables, s1.buffers, fieldData);
      var s3 := ItemFieldValueReceivedStep(s2.tables, s2.buffers, text, env);
      && s1.next == Some(ItemEditSelect) && s2.next == Some(ItemEditFieldValue) && s3.next == None
      && s3.tables == PutItem(t, key, WithTextField(t.items[key], field, Strip(text)))
  {
  }
}
