/**
 * Inline-keyboard payloads. The menus encode a choice as colon-separated
 * tokens whose first token names a namespace (`cat`, `item`, `buy`, `nav`,
 * `admin`); three routers decode them by prefix tests and `split(":")`.
 */
module Callbacks {
  import opened Wrappers
  import opened Text

  // ---------- Encoders: the payloads the menus attach to their buttons ----------

  function CategoryPayload(category: string): string { "cat:" + category }
  function ItemPayload(category: string, item: string): string { "item:" + category + ":" + item }
  function BuyPayload(category: string, item: string): string { "buy:" + category + ":" + item }
  function CategoryEditPayload(category: string): string { "admin:cat:edit:" + category }
  function CategoryDeletePayload(category: string): string { "admin:cat:del:" + category }
  function ItemEditPayload(item: string): string { "admin:item:edit:" + item }
  function ItemDeletePayload(item: string): string { "admin:item:del:" + item }
  function AssignPayload(category: string): string { "admin:assign_cat:" + category }
  function FieldPayload(field: string): string { "admin:item:field:" + field }
  function MovePayload(category: string): string { "admin:item:move:" + category }

  // ---------- The user-facing router ----------

  /** The admin screens `admin_callback_router` and `generic_admin_callback_dispatch` hand a payload to. */
  datatype AdminAction =
    | CategoryAddStart | CategoryEditStart | CategoryDeleteConfirm | CategoryDeleteExecute
    | ShowCategories
    | ItemAddStart | ItemEditStart | ItemDeleteConfirm | ItemDeleteExecute
    | ItemFieldSelect | ItemMove
    | ShowItems | PanelStart
    | AssignCategory

  /** What `callback_router` does with a payload. */
  datatype UserAction =
    | BackToCategories                               // "nav:categories"
    | OpenAdminPanel                                 // "admin:open", gated on the admin identity
    | OpenCategory(category: string)
    | OpenItem(category: string, item: string)
    | Buy(category: string, item: string)
    | ForwardAdmin(action: AdminAction)             // to admin_callback_router
    | Malformed                                      // the three-name unpacking of a split raised
    | Unknown

  /** Whether `split(":", 2)` of the payload yields exactly three parts (else the unpacking raises). */
  function ThreeParts(data: string): Option<(string, string)> {
    var p := SplitN(data, 2);
    if |p| == 3 then Some((p[1], p[2])) else None
  }

  /**
   * `callback_router`: exact matches first, then the prefixes in source order.
   * Every `admin:` payload except `admin:open` is forwarded to `admin_callback_router`.
   */
  function DecodeUser(data: string): (r: UserAction)
    ensures r.ForwardAdmin? <==> StartsWith(data, "admin:") && data != "admin:open"
    ensures r.ForwardAdmin? ==> r.action == AdminRoute(data)
  {
    AdminPrefixExcludes(data);
    if data == "nav:categories" then BackToCategories
    else if data == "admin:open" then OpenAdminPanel
    else if StartsWith(data, "cat:") then
      var p := SplitN(data, 1);
      if |p| == 2 then OpenCategory(p[1]) else Malformed
    else if StartsWith(data, "item:") then
      match ThreeParts(data)
      case Some((c, i)) => OpenItem(c, i)
      case None => Malformed
    else if StartsWith(data, "buy:") then
      match ThreeParts(data)
      case Some((c, i)) => Buy(c, i)
      case None => Malformed
    else if StartsWith(data, "admin:") then ForwardAdmin(AdminRoute(data))
    else Unknown
  }

  /** An `admin:` payload matches none of the user-facing payloads tested before it. */
  lemma AdminPrefixExcludes(data: string)
    ensures StartsWith(data, "admin:") ==>
      data != "nav:categories" && !StartsWith(data, "cat:") && !StartsWith(data, "item:")
      && !StartsWith(data, "buy:")
  {
    if StartsWith(data, "admin:") {
      assert data[0] == "admin:"[0];
      DiffersAt(data, "nav:categories", 0);
      DiffersAt(data, "cat:", 0);
      DiffersAt(data, "item:", 0);
      DiffersAt(data, "buy:", 0);
    }
  }

  /** `admin_callback_router`: `_, action, *rest = data.split(":")`, then the action name. */
  function AdminRoute(data: string): AdminAction {
    var parts := SplitAll(data);
    if |parts| >= 2 && parts[1] == "categories" then ShowCategories
    else if |parts| >= 2 && parts[1] == "items" then ShowItems
    else PanelStart
  }

  // ---------- The admin dispatcher ----------

  /** `generic_admin_callback_dispatch`, as written: it has no branch for `admin:assign_cat:` payloads. */
  function DecodeAdmin(data: string): AdminAction {
    if data == "admin:cat:add" then CategoryAddStart
    else if StartsWith(data, "admin:cat:edit:") then CategoryEditStart
    else if StartsWith(data, "admin:cat:del:") then CategoryDeleteConfirm
    else if data == "admin:cat:confirm_del" then CategoryDeleteExecute
    else if data == "admin:cat:back" then ShowCategories
    else if data == "admin:item:add" then ItemAddStart
    else if StartsWith(data, "admin:item:edit:") then ItemEditStart
    else if StartsWith(data, "admin:item:del:") then ItemDeleteConfirm
    else if data == "admin:item:confirm_del" then ItemDeleteExecute
    else if StartsWith(data, "admin:item:field:") then ItemFieldSelect
    else if StartsWith(data, "admin:item:move:") then ItemMove
    else if data == "admin:categories" || data == "admin:open" then ShowCategories
    else if data == "admin:items" then ShowItems
    else PanelStart
  }

  /** The dispatcher with the missing branch: category choices of the add-item flow reach their handler. */
  function DecodeAdminRouted(data: string): (a: AdminAction)
    ensures a != DecodeAdmin(data) <==> StartsWith(data, "admin:assign_cat:")
  {
    if StartsWith(data, "admin:assign_cat:") then
      AssignPrefixFallsThrough(data);
      AssignCategory
    else DecodeAdmin(data)
  }

  /** Neither admin router has a branch for a category choice of the add-item flow. */
  lemma AssignPrefixFallsThrough(data: string)
    requires StartsWith(data, "admin:assign_cat:")
    ensures DecodeAdmin(data) == PanelStart && AdminRoute(data) == PanelStart
  {
    AssignNotDispatched(data);
    var k := data[17..];
    assert data == data[..17] + k;
    AssignNotRouted(k);
  }

  lemma AssignNotRouted(category: string)
    ensures AdminRoute(AssignPayload(category)) == PanelStart
  {
    var d := AssignPayload(category);
    var e := "admin" + ":" + ("assign_cat" + ":" + category);
    assert d == e;
    SecondWord(e, "admin", "assign_cat", category);
  }

  lemma SecondWord(d: string, a: string, b: string, rest: string)
    requires ':' !in a && ':' !in b && d == a + ":" + (b + ":" + rest)
    ensures |SplitAll(d)| >= 2 && SplitAll(d)[1] == b
  {
    SplitAllAfter(a, b + ":" + rest);
    SplitAllAfter(b, rest);
  }

  lemma AssignNotDispatched(data: string)
    requires StartsWith(data, "admin:assign_cat:")
    ensures DecodeAdmin(data) == PanelStart
  {
    assert data[..17][6] == 'a';
    DiffersAt(data, "admin:cat:add", 6);
    DiffersAt(data, "admin:cat:edit:", 6);
    DiffersAt(data, "admin:cat:del:", 6);
    DiffersAt(data, "admin:cat:confirm_del", 6);
    DiffersAt(data, "admin:cat:back", 6);
    DiffersAt(data, "admin:item:add", 6);
    DiffersAt(data, "admin:item:edit:", 6);
    DiffersAt(data, "admin:item:del:", 6);
    DiffersAt(data, "admin:item:confirm_del", 6);
    DiffersAt(data, "admin:item:field:", 6);
    DiffersAt(data, "admin:item:move:", 6);
    DiffersAt(data, "admin:categories", 6);
    DiffersAt(data, "admin:open", 6);
    DiffersAt(data, "admin:items", 6);
  }

  // ---------- Arguments the admin handlers read from a payload ----------

  /** `parts[3] if len(parts) >= 4 else None` (the edit and delete handlers). */
  function ArgAt3(data: string): Option<string> {
    var parts := SplitAll(data);
    if |parts| >= 4 then Some(parts[3]) else None
  }

  /** `data.split(":")[-1]` (the field-select and move handlers). */
  function LastArg(data: string): string {
    var parts := SplitAll(data);
    parts[|parts| - 1]
  }

  /** `_, _, cat = data.split(":", 2)` (the add-item category handler); `None` when the unpacking raises. */
  function AssignArg(data: string): Option<string> {
    match ThreeParts(data)
    case Some((_, c)) => Some(c)
    case None => None
  }

  // ---------- Round trips ----------

  /** A category button decodes to that category, whatever the key. */
  lemma CategoryPayloadRoundTrip(category: string)
    ensures DecodeUser(CategoryPayload(category)) == OpenCategory(category)
  {
    var d := CategoryPayload(category);
    assert d[0] == 'c';
    assert d == Join(["cat", category]);
    SplitNJoin(["cat", category], 1);
  }

  /** An item button decodes to its (category, item) pair exactly when the category key has no ':'. */
  lemma ItemPayloadRoundTrip(category: string, item: string)
    ensures DecodeUser(ItemPayload(category, item)) == OpenItem(category, item) <==> ':' !in category
  {
    var d := ItemPayload(category, item);
    DiffersAt(d, "nav:categories", 0);
    DiffersAt(d, "admin:open", 0);
    DiffersAt(d, "cat:", 0);
    PrefixOf("item:", category + ":" + item);
    assert d == "item:" + (category + ":" + item);
    assert d == "item" + ":" + (category + ":" + item);
    ThreePartsOf(d, "item", category, item);
  }

  /** A buy button decodes to its (category, item) pair exactly when the category key has no ':'. */
  lemma BuyPayloadRoundTrip(category: string, item: string)
    ensures DecodeUser(BuyPayload(category, item)) == Buy(category, item) <==> ':' !in category
  {
    var d := BuyPayload(category, item);
    DiffersAt(d, "nav:categories", 0);
    DiffersAt(d, "admin:open", 0);
    DiffersAt(d, "cat:", 0);
    DiffersAt(d, "item:", 0);
    PrefixOf("buy:", category + ":" + item);
    assert d == "buy:" + (category + ":" + item);
    assert d == "buy" + ":" + (category + ":" + item);
    ThreePartsOf(d, "buy", category, item);
  }

  /** An item or buy payload with one word after its tag cannot be unpacked into three names. */
  lemma TwoWordPayloadMalformed(rest: string)
    requires ':' !in rest
    ensures DecodeUser("item:" + rest) == Malformed && DecodeUser("buy:" + rest) == Malformed
  {
    var d := "item:" + rest;
    DiffersAt(d, "nav:categories", 0);
    DiffersAt(d, "admin:open", 0);
    DiffersAt(d, "cat:", 0);
    PrefixOf("item:", rest);
    assert d == "item" + ":" + rest;
    TwoWordsNotThree(d, "item", rest);
    var e := "buy:" + rest;
    DiffersAt(e, "nav:categories", 0);
    DiffersAt(e, "admin:open", 0);
    DiffersAt(e, "cat:", 0);
    DiffersAt(e, "item:", 0);
    PrefixOf("buy:", rest);
    assert e == "buy" + ":" + rest;
    TwoWordsNotThree(e, "buy", rest);
  }

  lemma TwoWordsNotThree(d: string, tag: string, rest: string)
    requires ':' !in tag && ':' !in rest && d == tag + ":" + rest
    ensures ThreeParts(d) == None
  {
    SplitNAfter(tag, rest, 2);
    assert ColonIndex(rest) == |rest|;
    assert SplitN(rest, 1) == [rest];
  }

  lemma ThreePartsOf(d: string, tag: string, category: string, item: string)
    requires ':' !in tag && d == tag + ":" + (category + ":" + item)
    ensures ThreeParts(d) == Some((category, item)) <==> ':' !in category
  {
    var rest := category + ":" + item;
    SplitNAfter(tag, rest, 2);
    if ':' !in category {
      SplitNAfter(category, item, 1);
    } else {
      var i := ColonIndex(rest);
      assert i < |category| by {
        var j :| 0 <= j < |category| && category[j] == ':';
        assert rest[j] == ':';
      }
      assert SplitN(rest, 1)[0] == rest[..i];
      assert |SplitN(d, 2)[1]| < |category|;
    }
  }

  /** An edit-category button dispatches to the rename screen, for every key. */
  lemma CategoryEditPayloadDispatch(key: string)
    ensures DecodeAdmin(CategoryEditPayload(key)) == CategoryEditStart
  {
    var d := CategoryEditPayload(key);
    DiffersAt(d, "admin:cat:add", 10);
    PrefixOf("admin:cat:edit:", key);
  }

  /** A delete-category button dispatches to the confirmation screen, for every key. */
  lemma CategoryDeletePayloadDispatch(key: string)
    ensures DecodeAdmin(CategoryDeletePayload(key)) == CategoryDeleteConfirm
  {
    var d := CategoryDeletePayload(key);
    DiffersAt(d, "admin:cat:add", 10);
    DiffersAt(d, "admin:cat:edit:", 10);
    PrefixOf("admin:cat:del:", key);
  }

  /** The first five tests of the dispatcher fail on every `admin:item:` payload. */
  lemma NotCategoryPayload(d: string)
    requires StartsWith(d, "admin:item:")
    ensures d != "admin:cat:add" && !StartsWith(d, "admin:cat:edit:") && !StartsWith(d, "admin:cat:del:")
    ensures d != "admin:cat:confirm_del" && d != "admin:cat:back"
  {
    assert d[..11][6] == 'i';
    DiffersAt(d, "admin:cat:add", 6);
    DiffersAt(d, "admin:cat:edit:", 6);
    DiffersAt(d, "admin:cat:del:", 6);
    DiffersAt(d, "admin:cat:confirm_del", 6);
    DiffersAt(d, "admin:cat:back", 6);
  }

  /** An edit-item button dispatches to the item editor, for every key. */
  lemma ItemEditPayloadDispatch(key: string)
    ensures DecodeAdmin(ItemEditPayload(key)) == ItemEditStart
  {
    var d := ItemEditPayload(key);
    assert d == "admin:item:" + ("edit:" + key);
    PrefixOf("admin:item:", "edit:" + key);
    NotCategoryPayload(d);
    DiffersAt(d, "admin:item:add", 11);
    PrefixOf("admin:item:edit:", key);
  }

  /** A delete-item button dispatches to the confirmation screen, for every key. */
  lemma ItemDeletePayloadDispatch(key: string)
    ensures DecodeAdmin(ItemDeletePayload(key)) == ItemDeleteConfirm
  {
    var d := ItemDeletePayload(key);
    assert d == "admin:item:" + ("del:" + key);
    PrefixOf("admin:item:", "del:" + key);
    NotCategoryPayload(d);
    DiffersAt(d, "admin:item:add", 11);
    DiffersAt(d, "admin:item:edit:", 11);
    PrefixOf("admin:item:del:", key);
  }

  /** A field button dispatches to the field selector, for every field name. */
  lemma FieldPayloadDispatch(field: string)
    ensures DecodeAdmin(FieldPayload(field)) == ItemFieldSelect
  {
    var d := FieldPayload(field);
    assert d == "admin:item:" + ("field:" + field);
    PrefixOf("admin:item:", "field:" + field);
    NotCategoryPayload(d);
    DiffersAt(d, "admin:item:add", 11);
    DiffersAt(d, "admin:item:edit:", 11);
    DiffersAt(d, "admin:item:del:", 11);
    DiffersAt(d, "admin:item:confirm_del", 11);
    PrefixOf("admin:item:field:", field);
  }

  /** A move button dispatches to the move handler, for every category key. */
  lemma MovePayloadDispatch(category: string)
    ensures DecodeAdmin(MovePayload(category)) == ItemMove
  {
    var d := MovePayload(category);
    assert d == "admin:item:" + ("move:" + category);
    PrefixOf("admin:item:", "move:" + category);
    NotCategoryPayload(d);
    DiffersAt(d, "admin:item:add", 11);
    DiffersAt(d, "admin:item:edit:", 11);
    DiffersAt(d, "admin:item:del:", 11);
    DiffersAt(d, "admin:item:confirm_del", 11);
    DiffersAt(d, "admin:item:field:", 11);
    PrefixOf("admin:item:move:", category);
  }

  /** A payload of three colon-free words and a key: the split holds the words, then the key's own parts. */
  lemma SplitAfterThreeWords(a: string, b: string, c: string, key: string)
    requires ':' !in a && ':' !in b && ':' !in c
    ensures SplitAll(a + ":" + (b + ":" + (c + ":" + key))) == [a, b, c] + SplitAll(key)
  {
    var r := c + ":" + key;
    var q := b + ":" + r;
    SplitAllAfter(c, key);
    SplitAllAfter(b, r);
    SplitAllAfter(a, q);
  }

  /** `parts[3]` of `a:b:c:key` is the key exactly when the key has no ':'. */
  lemma {:induction false} ArgAt3RoundTrip(d: string, a: string, b: string, c: string, key: string)
    requires ':' !in a && ':' !in b && ':' !in c && d == a + ":" + (b + ":" + (c + ":" + key))
    ensures ArgAt3(d) == Some(key) <==> ':' !in key
  {
    SplitAfterThreeWords(a, b, c, key);
    SplitAllHead(key);
  }

  /** `parts[-1]` of `a:b:c:key` is the key exactly when the key has no ':'. */
  lemma {:induction false} LastArgRoundTrip(d: string, a: string, b: string, c: string, key: string)
    requires ':' !in a && ':' !in b && ':' !in c && d == a + ":" + (b + ":" + (c + ":" + key))
    ensures LastArg(d) == key <==> ':' !in key
  {
    SplitAfterThreeWords(a, b, c, key);
    var parts := SplitAll(key);
    if ':' !in key {
      SplitAllJoin([key]);
    } else {
      SplitAllPartsShorter(key, |parts| - 1);
    }
  }

  /** The category the rename screen reads back is the one its button carries. */
  lemma CategoryEditArg(key: string)
    ensures ArgAt3(CategoryEditPayload(key)) == Some(key) <==> ':' !in key
  {
    assert CategoryEditPayload(key) == "admin" + ":" + ("cat" + ":" + ("edit" + ":" + key));
    ArgAt3RoundTrip(CategoryEditPayload(key), "admin", "cat", "edit", key);
  }

  /** The category the delete confirmation reads back is the one its button carries. */
  lemma CategoryDeleteArg(key: string)
    ensures ArgAt3(CategoryDeletePayload(key)) == Some(key) <==> ':' !in key
  {
    assert CategoryDeletePayload(key) == "admin" + ":" + ("cat" + ":" + ("del" + ":" + key));
    ArgAt3RoundTrip(CategoryDeletePayload(key), "admin", "cat", "del", key);
  }

  /** The item the editor reads back is the one its button carries. */
  lemma ItemEditArg(key: string)
    ensures ArgAt3(ItemEditPayload(key)) == Some(key) <==> ':' !in key
  {
    assert ItemEditPayload(key) == "admin" + ":" + ("item" + ":" + ("edit" + ":" + key));
    ArgAt3RoundTrip(ItemEditPayload(key), "admin", "item", "edit", key);
  }

  /** The item the delete confirmation reads back is the one its button carries. */
  lemma ItemDeleteArg(key: string)
    ensures ArgAt3(ItemDeletePayload(key)) == Some(key) <==> ':' !in key
  {
    assert ItemDeletePayload(key) == "admin" + ":" + ("item" + ":" + ("del" + ":" + key));
    ArgAt3RoundTrip(ItemDeletePayload(key), "admin", "item", "del", key);
  }

  /** The target category the move handler reads back is the one its button carries. */
  lemma MoveArg(key: string)
    ensures LastArg(MovePayload(key)) == key <==> ':' !in key
  {
    assert MovePayload(key) == "admin" + ":" + ("item" + ":" + ("move" + ":" + key));
    LastArgRoundTrip(MovePayload(key), "admin", "item", "move", key);
  }

  /** The field name the field selector reads back is the one its button carries. */
  lemma FieldArg(field: string)
    ensures LastArg(FieldPayload(field)) == field <==> ':' !in field
  {
    assert FieldPayload(field) == "admin" + ":" + ("item" + ":" + ("field" + ":" + field));
    LastArgRoundTrip(FieldPayload(field), "admin", "item", "field", field);
  }

  /** The category an add-item button carries comes back whole, colons included. */
  lemma AssignPayloadArg(category: string)
    ensures AssignArg(AssignPayload(category)) == Some(category)
    ensures DecodeAdminRouted(AssignPayload(category)) == AssignCategory
  {
    var d := AssignPayload(category);
    assert d == "admin" + ":" + ("assign_cat" + ":" + category);
    ColonIndexAfter("admin", "assign_cat" + ":" + category);
    ColonIndexAfter("assign_cat", category);
    assert SplitN(d, 2) == ["admin"] + SplitN("assign_cat" + ":" + category, 1);
    assert SplitN("assign_cat" + ":" + category, 1) == ["assign_cat"] + SplitN(category, 0);
    PrefixOf("admin:assign_cat:", category);
  }
}
