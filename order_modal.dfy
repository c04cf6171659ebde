/** The order modal: the form it starts from, one-field updates, the
    create/edit dispatch on submit, and the delete guard. The API calls are
    outputs of the model; whether they throw is an input. */
module OrderModal {
  import opened Base
  import opened Schema
  import OrdersRoute
  import Store

  datatype Mode = Create | Edit

  /** `formData`; `amount` in cents. */
  datatype Form = Form(content: string, orderNumber: string, status: string, amount: int)

  const BlankForm: Form := Form("", "", Placed, 0)

  /** The form the effect on `[mode, order]` sets. */
  function InitialForm(mode: Mode, order: Option<OrderView>): (f: Form)
    ensures mode == Edit && order.Some? ==>
      && f.content == order.value.content && f.orderNumber == order.value.orderNumber
      && f.amount == order.value.amount
      && f.status == (if order.value.status == "" then Placed else order.value.status)
    ensures !(mode == Edit && order.Some?) ==> f == BlankForm
    ensures f.status != ""
  {
    if mode == Edit && order.Some? then
      var o := order.value;
      Form(OrElse(Some(o.content), ""), OrElse(Some(o.orderNumber), ""),
           OrElse(Some(o.status), Placed), OrAmount(Some(o.amount), 0))
    else BlankForm
  }

  /** The `name` attributes of the form's inputs. */
  datatype Field = ContentField | NumberField | StatusField | AmountField

  /** `setFormData(prev => ({ ...prev, [name]: ... }))`; `parse` is
      `parseFloat` to cents, `None` for NaN, and the amount is `parse(v) || 0`. */
  function SetField(f: Form, name: Field, value: string, parse: string -> Option<int>): (g: Form)
    ensures name == ContentField ==> g == f.(content := value)
    ensures name == NumberField ==> g == f.(orderNumber := value)
    ensures name == StatusField ==> g == f.(status := value)
    ensures name == AmountField ==> g == f.(amount := if parse(value).Some? then parse(value).value else 0)
  {
    match name
    case ContentField => f.(content := value)
    case NumberField => f.(orderNumber := value)
    case StatusField => f.(status := value)
    case AmountField => f.(amount := OrAmount(parse(value), 0))
  }

  /** A non-numeric amount becomes 0, and no update touches another field. */
  lemma SetFieldTouchesOneField(f: Form, name: Field, value: string, parse: string -> Option<int>)
    ensures parse(value).None? && name == AmountField ==> SetField(f, name, value, parse).amount == 0
    ensures name != ContentField ==> SetField(f, name, value, parse).content == f.content
    ensures name != NumberField ==> SetField(f, name, value, parse).orderNumber == f.orderNumber
    ensures name != StatusField ==> SetField(f, name, value, parse).status == f.status
    ensures name != AmountField ==> SetField(f, name, value, parse).amount == f.amount
  {
  }

  /** The call `handleSubmit` makes. */
  datatype Call =
    | CreateOrder(fields: Form)
    | UpdateOrder(id: string, fields: Form)
    | DeleteOrder(id: string)

  /** Create sends the four fields; edit with an order sends them under its
      id; edit without an order sends nothing. */
  function SubmitCall(mode: Mode, order: Option<OrderView>, f: Form): (c: Option<Call>)
    ensures mode == Create ==> c == Some(CreateOrder(f))
    ensures mode == Edit && order.Some? ==> c == Some(UpdateOrder(order.value.id, f))
    ensures mode == Edit && order.None? ==> c.None?
  {
    if mode == Create then Some(CreateOrder(f))
    else if order.Some? then Some(UpdateOrder(order.value.id, f))
    else None
  }

  /** Submitting an unedited edit form writes back the order's own fields. */
  lemma UneditedSubmitKeepsOrder(o: OrderView)
    requires o.status != ""
    ensures SubmitCall(Edit, Some(o), InitialForm(Edit, Some(o)))
         == Some(UpdateOrder(o.id, Form(o.content, o.orderNumber, o.status, o.amount)))
  {
  }

  /** The JSON body `createOrder` posts. */
  function CreateBody(f: Form): OrdersRoute.OrderInput
  {
    OrdersRoute.OrderInput(Some(f.content), Some(f.orderNumber), Some(f.status), Some(f.amount), None)
  }

  /** A form created through the modal is stored with its four fields, owned
      by the session user. */
  lemma CreatedOrderHoldsForm(f: Form, uid: string, id: string, now: Timestamp)
    ensures var v := OrdersRoute.NewOrder(CreateBody(f), uid, id, now);
      && Store.NotNull(v)
      && Store.ToRow(v) == OrderRow(id, f.content, f.orderNumber, f.status, f.amount, uid, now, now)
  {
  }

  const CreateFailed: string := "创建订单失败"
  const UpdateFailed: string := "更新订单失败"
  const DeleteFailed: string := "删除订单失败"

  class Modal {
    const mode: Mode
    const order: Option<OrderView>
    var form: Form
    var loading: bool
    var error: Option<string>

    /** Mounting, after the initialising effect has run. */
    constructor (mode: Mode, order: Option<OrderView>)
      ensures this.mode == mode && this.order == order
      ensures form == InitialForm(mode, order) && !loading && error.None?
    {
      this.mode := mode;
      this.order := order;
      form := InitialForm(mode, order);
      loading := false;
      error := None;
    }

    /** `handleChange`. */
    method HandleChange(name: Field, value: string, parse: string -> Option<int>)
      modifies this
      ensures form == SetField(old(form), name, value, parse)
      ensures loading == old(loading) && error == old(error)
    {
      form := SetField(form, name, value, parse);
    }

    /** `handleSubmit`. `threw` says whether the API call threw; `closed`
        says whether `onOrderUpdate` and `onClose` ran. */
    method HandleSubmit(threw: bool) returns (call: Option<Call>, closed: bool)
      modifies this
      ensures call == SubmitCall(mode, order, old(form))
      ensures form == old(form) && !loading
      ensures closed <==> call.None? || !threw
      ensures closed ==> error.None?
      ensures !closed ==> error == Some(if mode == Create then CreateFailed else UpdateFailed)
    {
      loading := true;
      error := None;
      call := SubmitCall(mode, order, form);
      if call.Some? && threw {
        error := Some(if mode == Create then CreateFailed else UpdateFailed);
        closed := false;
      } else {
        closed := true;
      }
      loading := false;
    }

    /** `handleDelete`. Without an order id nothing happens; without the
        user's confirmation nothing happens either. `deleteOrder` in
        `src/lib/api.ts` catches its own errors and returns `false`, so with
        that client `threw` is always false and a failed delete also closes
        the modal; the `threw` path covers a client that throws. */
    method HandleDelete(confirmed: bool, threw: bool) returns (call: Option<Call>, closed: bool)
      modifies this
      ensures form == old(form)
      ensures order.None? || !Truthy(Some(order.value.id)) || !confirmed ==>
        call.None? && !closed && loading == old(loading) && error == old(error)
      ensures order.Some? && Truthy(Some(order.value.id)) && confirmed ==>
        && call == Some(DeleteOrder(order.value.id)) && !loading
        && (closed <==> !threw) && (threw ==> error == Some(DeleteFailed)) && (!threw ==> error == old(error))
    {
      call := None;
      closed := false;
      if order.None? || !Truthy(Some(order.value.id)) {
        return;
      }
      if !confirmed {
        return;
      }
      loading := true;
      call := Some(DeleteOrder(order.value.id));
      if threw {
        error := Some(DeleteFailed);
      } else {
        closed := true;
      }
      loading := false;
    }
  }
}
