/**
 * Per-user conversation data: the sixteen conversation states, the edit
 * buffers kept in `context.user_data`, the pending payment, and the table
 * that says which text handler a state accepts.
 */
module Sessions {
  import opened Wrappers

  /** The conversation states, in the order that numbers them 0 to 15. */
  datatype State =
    | AdminMenu | CategoryMenu | CategoryAdd | CategoryEditKey | CategoryEditName | CategoryDeleteConfirm
    | ItemMenu | ItemAddKey | ItemAddName | ItemAddPrice | ItemAddPath | ItemAddCategory
    | ItemEditSelect | ItemEditFieldSelect | ItemEditFieldValue | ItemDeleteConfirm

  /** The integer the state names are bound to by `range(16)`. */
  function Code(st: State): (n: nat)
    ensures n < 16
  {
    match st
    case AdminMenu => 0
    case CategoryMenu => 1
    case CategoryAdd => 2
    case CategoryEditKey => 3
    case CategoryEditName => 4
    case CategoryDeleteConfirm => 5
    case ItemMenu => 6
    case ItemAddKey => 7
    case ItemAddName => 8
    case ItemAddPrice => 9
    case ItemAddPath => 10
    case ItemAddCategory => 11
    case ItemEditSelect => 12
    case ItemEditFieldSelect => 13
    case ItemEditFieldValue => 14
    case ItemDeleteConfirm => 15
  }

  /** The state an integer in `range(16)` stands for. */
  function FromCode(n: nat): (st: State)
    requires n < 16
    ensures Code(st) == n
  {
    [AdminMenu, CategoryMenu, CategoryAdd, CategoryEditKey, CategoryEditName, CategoryDeleteConfirm,
     ItemMenu, ItemAddKey, ItemAddName, ItemAddPrice, ItemAddPath, ItemAddCategory,
     ItemEditSelect, ItemEditFieldSelect, ItemEditFieldValue, ItemDeleteConfirm][n]
  }

  /** The sixteen names get sixteen different integers: no two states share a code. */
  lemma CodesDistinct(a: State, b: State)
    ensures Code(a) == Code(b) <==> a == b
  {
    if Code(a) == Code(b) {
      assert FromCode(Code(a)) == a && FromCode(Code(b)) == b by {
        CodeRoundTrip(a);
        CodeRoundTrip(b);
      }
    }
  }

  lemma CodeRoundTrip(st: State)
    ensures FromCode(Code(st)) == st
  {
    match st
    case AdminMenu =>
    case CategoryMenu =>
    case CategoryAdd =>
    case CategoryEditKey =>
    case CategoryEditName =>
    case CategoryDeleteConfirm =>
    case ItemMenu =>
    case ItemAddKey =>
    case ItemAddName =>
    case ItemAddPrice =>
    case ItemAddPath =>
    case ItemAddCategory =>
    case ItemEditSelect =>
    case ItemEditFieldSelect =>
    case ItemEditFieldValue =>
    case ItemDeleteConfirm =>
  }

  // ---------- Who may open the admin panel ----------

  datatype User = User(id: int)

  const AdminUserId: int := 7260656020

  /** `user and user.id == ADMIN_USER_ID`, read as a truth value. */
  function IsAdminUser(user: Option<User>): (admitted: bool)
    ensures admitted <==> user.Some? && user.value.id == AdminUserId
  {
    match user
    case None => false
    case Some(u) => u.id == AdminUserId
  }

  // ---------- Buffers kept between steps ----------

  /** The `context.user_data` entries the admin flows write; `None` is an absent key. */
  datatype Buffers = Buffers(
    newItemKey: Option<string>,
    newItemName: Option<string>,
    newItemPrice: Option<real>,
    newItemPath: Option<string>,
    editCategoryKey: Option<string>,
    editItemKey: Option<string>,
    editField: Option<string>,
    deleteCategoryKey: Option<string>,
    deleteItemKey: Option<string>)

  const NoBuffers: Buffers := Buffers(None, None, None, None, None, None, None, None, None)

  /** Python truthiness of an optional string: present and non-empty. */
  predicate Truthy(s: Option<string>) {
    s.Some? && s.value != ""
  }

  /** `context.user_data['pending_payment']` */
  datatype Payment = Payment(itemKey: string, address: Option<string>, amount: real)

  /** One user's conversation state, buffers and pending payment. */
  class Session {
    var state: Option<State>
    var buffers: Buffers
    var pending: Option<Payment>

    constructor ()
      ensures state == None && buffers == NoBuffers && pending == None
    {
      state := None;
      buffers := NoBuffers;
      pending := None;
    }
  }

  // ---------- Which text handler a state accepts ----------

  datatype TextHandler =
    | CategoryAddText | CategoryRenameText
    | ItemKeyText | ItemNameText | ItemPriceText | ItemPathText
    | FieldValueText

  /** The conversation's state table: the text handler registered for a state, if any. */
  function TextHandlerFor(st: State): Option<TextHandler> {
    match st
    case CategoryAdd => Some(CategoryAddText)
    case CategoryEditKey => Some(CategoryRenameText)
    case ItemAddKey => Some(ItemKeyText)
    case ItemAddName => Some(ItemNameText)
    case ItemAddPrice => Some(ItemPriceText)
    case ItemAddPath => Some(ItemPathText)
    case ItemEditFieldValue => Some(FieldValueText)
    case _ => None
  }

  /** Each text handler is reached from exactly one state. */
  lemma TextTableInjective(a: State, b: State)
    requires TextHandlerFor(a).Some? && TextHandlerFor(a) == TextHandlerFor(b)
    ensures a == b
  {
  }

  /** The state where a new field value is typed is the only one that reaches its handler. */
  lemma FieldValueOnlyState(st: State)
    ensures TextHandlerFor(st) == Some(FieldValueText) <==> st == ItemEditFieldValue
  {
  }

  // ---------- The field-select step ----------

  /** The state `admin_item_field_select` returns as written: the same in both branches. */
  function FieldSelectStateAsWritten(field: string): State {
    if field == "category" then ItemEditFieldSelect else ItemEditFieldSelect
  }

  /** As written, no field choice leads to a state that accepts the new value as text. */
  lemma FieldValueUnreachable(field: string)
    ensures TextHandlerFor(FieldSelectStateAsWritten(field)) == None
  {
  }

  /**
   * The evidently intended state: a category move waits for a button press,
   * any other field waits for the typed value.
   */
  function FieldSelectState(field: string): (st: State)
    ensures TextHandlerFor(st) == Some(FieldValueText) <==> field != "category"
    ensures field == "category" ==> TextHandlerFor(st) == None
  {
    if field == "category" then ItemEditFieldSelect else ItemEditFieldValue
  }
}
