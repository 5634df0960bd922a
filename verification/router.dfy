/**
 * The entry points: typed text goes to the handler the state table names,
 * a pressed button goes through `callback_router` or through
 * `generic_admin_callback_dispatch`, and `/admin` opens the panel for the
 * admin only. The state a handler returns becomes the user's conversation
 * state.
 */
module Router {
  import opened Wrappers
  import opened Text
  import opened Callbacks
  import opened Catalog
  import opened Store
  import opened Sessions
  import AdminFlow
  import Payments

  /** The text handler the conversation state names, if any. */
  function HandlerIn(state: Option<State>): Option<TextHandler> {
    if state.Some? then TextHandlerFor(state.value) else None
  }

  /** The conversation state after a handler: the state it returned, or the old one when it raised. */
  function Advance(state: Option<State>, next: Option<State>): Option<State> {
    if next.Some? then next else state
  }

  /** What the text handler `h` does with `text`. */
  function TextStep(h: TextHandler, t: Tables, b: Buffers, text: string, env: AdminFlow.Environment): AdminFlow.Step {
    match h
    case CategoryAddText => AdminFlow.CatAddReceiveStep(t, b, text)
    case CategoryRenameText => AdminFlow.CatEditReceiveStep(t, b, text)
    case ItemKeyText => AdminFlow.ItemAddKeyReceivedStep(t, b, text)
    case ItemNameText => AdminFlow.ItemAddNameReceivedStep(t, b, text)
    case ItemPriceText => AdminFlow.ItemAddPriceReceivedStep(t, b, text, env)
    case ItemPathText => AdminFlow.ItemAddPathReceivedStep(t, b, text, env)
    case FieldValueText => AdminFlow.ItemFieldValueReceivedStep(t, b, text, env)
  }

  /**
   * Text typed by the user: with no text handler for the conversation state
   * nothing happens; otherwise that handler runs and its result becomes the
   * conversation state, unless it raised.
   */
  method OnText(store: CatalogStore, session: Session, text: string, env: AdminFlow.Environment)
    requires store.Valid()
    modifies store, session`buffers, session`state
    ensures store.Valid()
    ensures HandlerIn(old(session.state)).None? ==>
      && session.state == old(session.state) && session.buffers == old(session.buffers)
      && store.Snapshot() == old(store.Snapshot())
    ensures HandlerIn(old(session.state)).Some? ==>
      var s := TextStep(HandlerIn(old(session.state)).value, old(store.Snapshot()), old(session.buffers), text, env);
      && store.Snapshot() == s.tables && session.buffers == s.buffers
      && session.state == Advance(old(session.state), s.next)
  {
    var handler := HandlerIn(session.state);
    if handler.None? {
      return;
    }
    var next: Option<State>;
    match handler.value {
    case CategoryAddText =>
      next := AdminFlow.CatAddReceive(store, session, text);
    case CategoryRenameText =>
      next := AdminFlow.CatEditReceive(store, session, text);
    case ItemKeyText =>
      var n := AdminFlow.ItemAddKeyReceived(store, session, text);
      next := Some(n);
    case ItemNameText =>
      var n := AdminFlow.ItemAddNameReceived(store, session, text);
      next := Some(n);
    case ItemPriceText =>
      var n := AdminFlow.ItemAddPriceReceived(store, session, text, env);
      next := Some(n);
    case ItemPathText =>
      var n := AdminFlow.ItemAddPathReceived(store, session, text, env);
      next := Some(n);
    case FieldValueText =>
      next := AdminFlow.ItemFieldValueReceived(store, session, text, env);
    }
    session.state := Advance(session.state, next);
  }

  /** Text refused by the handler of state `st` leaves the user in `st` with the catalog and buffers unchanged. */
  lemma RejectedTextChangesNothing(st: State, t: Tables, b: Buffers, text: string, env: AdminFlow.Environment)
    requires TextHandlerFor(st).Some?
    ensures var s := TextStep(TextHandlerFor(st).value, t, b, text, env);
      s.next == Some(st) ==> s.tables == t && s.buffers == b
  {
    match st
    case CategoryAdd =>
    case CategoryEditKey =>
    case ItemAddKey =>
    case ItemAddName =>
    case ItemAddPrice =>
    case ItemAddPath =>
    case ItemEditFieldValue =>
    case _ =>
  }

  /**
   * A text step changes the catalog or the buffers, never both. Only the
   * category-add, category-rename and field-value handlers change the
   * catalog, and each of them then raises, so the state stays.
   */
  lemma TextEffects(h: TextHandler, t: Tables, b: Buffers, text: string, env: AdminFlow.Environment)
    ensures var s := TextStep(h, t, b, text, env);
      && (s.tables == t || s.buffers == b)
      && (s.tables != t ==> s.next == None)
      && (s.tables != t ==> h == CategoryAddText || h == CategoryRenameText || h == FieldValueText)
  {
    match h
    case CategoryAddText =>
    case CategoryRenameText =>
    case ItemKeyText =>
    case ItemNameText =>
    case ItemPriceText =>
    case ItemPathText =>
    case FieldValueText =>
  }

  /** A text step keeps the key order consistent, every listed item existing, and no list holding a key twice. */
  lemma TextKeepsWellFormed(h: TextHandler, t: Tables, b: Buffers, text: string, env: AdminFlow.Environment)
    requires WellFormed(t)
    ensures var r := TextStep(h, t, b, text, env).tables;
      && WellFormed(r)
      && (Referenced(t) ==> Referenced(r))
      && (NoDuplicates(t) ==> NoDuplicates(r))
  {
    match h
    case CategoryAddText => AdminFlow.CatAddReceiveKeeps(t, b, text);
    case CategoryRenameText => AdminFlow.CatEditReceiveKeeps(t, b, text);
    case FieldValueText => AdminFlow.ItemFieldValueReceivedKeeps(t, b, text, env);
    case _ =>
  }

  /** The state of an admin button that only shows a screen, or `None` for the others. */
  function ScreenState(a: AdminAction): Option<State> {
    match a
    case CategoryAddStart => Some(CategoryAdd)
    case ShowCategories => Some(CategoryMenu)
    case ItemAddStart => Some(ItemAddKey)
    case ShowItems => Some(ItemMenu)
    case PanelStart => Some(AdminMenu)
    case _ => None
  }

  /** What the admin button `a` with payload `data` does. */
  function PressStep(a: AdminAction, t: Tables, b: Buffers, data: string): AdminFlow.Step {
    match a
    case CategoryEditStart => AdminFlow.CatEditStartStep(t, b, data)
    case CategoryDeleteConfirm => AdminFlow.CatDeleteConfirmStep(t, b, data)
    case CategoryDeleteExecute => AdminFlow.CatDeleteExecuteStep(t, b)
    case ItemEditStart => AdminFlow.ItemEditStartStep(t, b, data)
    case ItemDeleteConfirm => AdminFlow.ItemDeleteConfirmStep(t, b, data)
    case ItemDeleteExecute => AdminFlow.ItemDeleteExecuteStep(t, b)
    case ItemFieldSelect => AdminFlow.ItemFieldSelectStep(t, b, data)
    case ItemMove => AdminFlow.ItemMoveCategoryStep(t, b, data)
    case AssignCategory => AdminFlow.ItemAddCategorySelectedStep(t, b, data)
    case _ => AdminFlow.Step(t, b, ScreenState(a))
  }

  /**
   * generic_admin_callback_dispatch, with the category-assignment button
   * routed to its handler. No admin check is made. The handler's result
   * becomes the conversation state, unless it raised.
   */
  method OnAdminPress(store: CatalogStore, session: Session, data: string)
    requires store.Valid()
    modifies store, session`buffers, session`state
    ensures store.Valid()
    ensures var s := PressStep(DecodeAdminRouted(data), old(store.Snapshot()), old(session.buffers), data);
      && store.Snapshot() == s.tables && session.buffers == s.buffers
      && session.state == Advance(old(session.state), s.next)
  {
    var action := DecodeAdminRouted(data);
    var next: Option<State>;
    match action {
    case CategoryAddStart =>
      next := Some(CategoryAdd);
    case ShowCategories =>
      next := Some(CategoryMenu);
    case ItemAddStart =>
      next := Some(ItemAddKey);
    case ShowItems =>
      next := Some(ItemMenu);
    case PanelStart =>
      next := Some(AdminMenu);
    case CategoryEditStart =>
      var n := AdminFlow.CatEditStart(store, session, data);
      next := Some(n);
    case CategoryDeleteConfirm =>
      var n := AdminFlow.CatDeleteConfirm(store, session, data);
      next := Some(n);
    case CategoryDeleteExecute =>
      var n := AdminFlow.CatDeleteExecute(store, session);
      next := Some(n);
    case ItemEditStart =>
      var n := AdminFlow.ItemEditStart(store, session, data);
      next := Some(n);
    case ItemDeleteConfirm =>
      var n := AdminFlow.ItemDeleteConfirm(store, session, data);
      next := Some(n);
    case ItemDeleteExecute =>
      var n := AdminFlow.ItemDeleteExecute(store, session);
      next := Some(n);
    case ItemFieldSelect =>
      var n := AdminFlow.ItemFieldSelect(store, session, data);
      next := Some(n);
    case ItemMove =>
      var n := AdminFlow.ItemMoveCategory(store, session, data);
      next := Some(n);
    case AssignCategory =>
      next := AdminFlow.ItemAddCategorySelected(store, session, data);
    }
    session.state := Advance(session.state, next);
  }

  /**
   * What an admin button may do: a screen button changes nothing but the
   * state; only the two delete confirmations, the move and the category
   * assignment change the catalog; only the start, confirm and field-select
   * buttons change the buffers; only a malformed assignment payload raises.
   */
  lemma PressEffects(a: AdminAction, t: Tables, b: Buffers, data: string)
    ensures var s := PressStep(a, t, b, data);
      && (ScreenState(a).Some? ==> s == AdminFlow.Step(t, b, ScreenState(a)))
      && (s.tables != t ==>
            a == CategoryDeleteExecute || a == ItemMove || a == ItemDeleteExecute || a == AssignCategory)
      && (s.buffers != b ==>
            a == CategoryEditStart || a == AdminAction.CategoryDeleteConfirm || a == ItemEditStart
            || a == AdminAction.ItemDeleteConfirm || a == ItemFieldSelect)
      && (s.next.None? <==> a == AssignCategory && data != "admin:cat:add" && AssignArg(data).None?)
  {
  }

  /** An admin button keeps the key order of CATEGORIES consistent with its keys. */
  lemma PressKeepsWellFormed(a: AdminAction, t: Tables, b: Buffers, data: string)
    requires WellFormed(t)
    ensures WellFormed(PressStep(a, t, b, data).tables)
  {
    match a
    case CategoryDeleteExecute => AdminFlow.CatDeleteExecuteKeeps(t, b);
    case ItemDeleteExecute => AdminFlow.ItemDeleteExecuteKeeps(t, b);
    case ItemMove => AdminFlow.ItemMoveCategoryKeeps(t, b, data);
    case AssignCategory => AdminFlow.ItemAddCategorySelectedKeeps(t, b, data);
    case _ =>
  }

  /**
   * With the four add-item buffers filled, the button for category
   * `category` reaches the add-item category handler, which commits the
   * buffered record under the buffered key into that category.
   */
  lemma AssignCommits(t: Tables, b: Buffers, category: string)
    requires AdminFlow.ReadyToCommit(b)
    ensures var data := AssignPayload(category);
      && DecodeAdminRouted(data) == AssignCategory
      && AdminFlow.ItemAddCategorySelectedStep(t, b, data)
           == AdminFlow.Step(AddItem(t, b.newItemKey.value, AdminFlow.BufferedItem(b), category), b, Some(ItemMenu))
  {
    AssignPayloadArg(category);
    AssignPayloadNotAdd(category);
    AdminFlow.CommitStep(t, b, AssignPayload(category));
  }

  /** A category-assignment payload is never the add-category payload. */
  lemma AssignPayloadNotAdd(category: string)
    ensures AssignPayload(category) != "admin:cat:add"
  {
    DiffersAt(AssignPayload(category), "admin:cat:add", 6);
  }

  /** admin_callback_router: the second payload part picks a screen. */
  function ForwardedState(a: AdminAction): State {
    match a
    case ShowCategories => CategoryMenu
    case ShowItems => ItemMenu
    case _ => AdminMenu
  }

  /**
   * callback_router. A press never changes the catalog. It changes the
   * conversation state only for an admin payload, and opens the panel from
   * `admin:open` only for the admin; it changes the pending payment only
   * for a Buy press.
   */
  method OnUserPress(store: CatalogStore, session: Session, user: Option<User>, data: string,
                     reply: Payments.AddressReply)
    modifies session
    ensures session.buffers == old(session.buffers)
    ensures session.state != old(session.state) ==>
      StartsWith(data, "admin:") && (data == "admin:open" ==> IsAdminUser(user))
    ensures data == "admin:open" ==>
      session.state == (if IsAdminUser(user) then Some(AdminMenu) else old(session.state))
    ensures DecodeUser(data).ForwardAdmin? ==> session.state == Some(ForwardedState(DecodeUser(data).action))
    ensures match DecodeUser(data)
      case Buy(_, item) => session.pending == Payments.Recorded(store.items, item, reply, old(session.pending))
      case _ => session.pending == old(session.pending)
  {
    match DecodeUser(data)
    case OpenAdminPanel =>
      if IsAdminUser(user) {
        session.state := Some(AdminMenu);
      }
    case Buy(_, item) =>
      Payments.BuyRequest(store, session, item, reply);
    case ForwardAdmin(a) =>
      session.state := Some(ForwardedState(a));
    case _ =>
  }

  /**
   * The `/admin` command: the panel opens for the admin. For anyone else the
   * entry hands back its reply message where a state is expected; no handler
   * is registered under that value, so the user is left with no state.
   */
  method OnAdminCommand(session: Session, user: Option<User>)
    modifies session`state
    ensures session.state == if IsAdminUser(user) then Some(AdminMenu) else None
  {
    if IsAdminUser(user) {
      session.state := Some(AdminMenu);
    } else {
      session.state := None;
    }
  }

  /**
   * The `/cancel` fallback hands back its reply message where a state is
   * expected, which leaves the user with no registered state: typed text
   * reaches no handler until `/admin` enters the conversation again.
   */
  method OnCancel(session: Session)
    modifies session`state
    ensures session.state == None
  {
    session.state := None;
  }
}
