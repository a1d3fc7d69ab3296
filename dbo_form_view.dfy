/** The Dbo form view: a template form view whose widgets and validators
    come from per-field form delegates. Its own logic is a registry of
    delegates that may be changed only until a model is bound, a
    "delegate if there is one, else the base view" dispatch for moving
    values between widgets and the model, the installation of a widget and
    a validator per field on binding, and the save sequence. */
module DboFormView {
  import opened FormHost

  /** The message of the exception thrown by setFormDelegate on a bound view. */
  const DelegatesLockedMessage: string :=
    "Form Delegates cannot be set after the model has been initialized!"

  /** A call that either returns normally or throws a WException. */
  datatype Outcome = Done | Thrown(message: string)

  /** A widget or validator a delegate made (null without a delegate, or
      when the delegate made none), with the customization hook calls made on the way. */
  datatype Made<T> = Made(value: Option<T>, hooks: seq<Event>)

  /** What a `WWidget*` transfer returned and the toolkit call it made. */
  datatype Step = Step(handled: bool, calls: seq<Event>)

  // ---------------------------------------------------------------------
  // The delegate registry

  /** delegate(field): the stored entry, or null when there is none. */
  function Delegate(delegates: map<Field, FormDelegate>, field: Field): (r: Option<FormDelegate>)
    ensures r.Some? <==> field in delegates
    ensures r.Some? ==> r.value == delegates[field]
  {
    if field in delegates then Some(delegates[field]) else None
  }

  /** Who a transfer for `field` goes to. */
  function HandlerFor(delegates: map<Field, FormDelegate>, field: Field): (h: Handler)
    ensures h.ByDelegate? <==> field in delegates
    ensures h.ByDelegate? ==> h.delegate == delegates[field]
  {
    match Delegate(delegates, field)
    case Some(d) => ByDelegate(d)
    case None => ByBase
  }

  /** The registry after setFormDelegate(field, d) on a view not yet bound:
      a null delegate erases the entry, any other replaces or adds it. */
  function WithDelegate(delegates: map<Field, FormDelegate>, field: Field, d: Option<FormDelegate>)
    : (r: map<Field, FormDelegate>)
    ensures Delegate(r, field) == d
    ensures forall g :: g != field ==> Delegate(r, g) == Delegate(delegates, g)
    ensures r.Keys == if d.Some? then delegates.Keys + {field} else delegates.Keys - {field}
    ensures d.None? && field !in delegates ==> r == delegates
  {
    match d
    case None => delegates - {field}
    case Some(x) => delegates[field := x]
  }

  // ---------------------------------------------------------------------
  // Widgets and validators made by the delegates

  /** formWidget(field): the widget the field's delegate creates (possibly
      null), after it was passed to the customizeFormWidget hook; null, and
      no hook call, when the field has no delegate. */
  function FormWidget(host: Host, delegates: map<Field, FormDelegate>, field: Field): (r: Made<WWidget>)
    ensures field !in delegates ==> r.value == None && r.hooks == []
    ensures field in delegates ==>
      r.value == host.createFormWidget(delegates[field]) &&
      r.hooks == [CustomizeFormWidget(field, r.value)]
    ensures r.value.Some? ==> field in delegates
  {
    match Delegate(delegates, field)
    case Some(d) =>
      var widget := host.createFormWidget(d);
      Made(widget, [CustomizeFormWidget(field, widget)])
    case None => Made(None, [])
  }

  /** validator(field): the validator the field's delegate creates (possibly
      null), after it was passed to the customizeValidator hook; null, and
      no hook call, when the field has no delegate. */
  function Validator(host: Host, delegates: map<Field, FormDelegate>, field: Field): (r: Made<WValidator>)
    ensures field !in delegates ==> r.value == None && r.hooks == []
    ensures field in delegates ==>
      r.value == host.createValidator(delegates[field]) &&
      r.hooks == [CustomizeValidator(field, r.value)]
    ensures r.value.Some? ==> field in delegates
  {
    match Delegate(delegates, field)
    case Some(d) =>
      var validator := host.createValidator(d);
      Made(validator, [CustomizeValidator(field, validator)])
    case None => Made(None, [])
  }

  // ---------------------------------------------------------------------
  // Moving values between widgets and the model

  /** The `WWidget*` overloads of updateModelValue / updateViewValue: the
      field's delegate answers if there is one, the base view otherwise. */
  function TransferValue(host: Host, delegates: map<Field, FormDelegate>, dir: Direction,
                         model: ModelRef, field: Field, edit: WWidget): (r: Step)
    ensures |r.calls| == 1 && r.calls[0].Transfer?
    ensures r.calls[0] == Transfer(dir, Generic, HandlerFor(delegates, field), model, field, edit)
    ensures field in delegates ==> r.handled == host.delegateTransfer(dir, delegates[field], model, field, edit)
    ensures field !in delegates ==> r.handled == host.baseTransfer(dir, model, field, edit)
  {
    var h := HandlerFor(delegates, field);
    var handled :=
      match h
      case ByDelegate(d) => host.delegateTransfer(dir, d, model, field, edit)
      case ByBase => host.baseTransfer(dir, model, field, edit);
    Step(handled, [Transfer(dir, Generic, h, model, field, edit)])
  }

  /** The `WFormWidget*` overloads: the `WWidget*` overload runs first; only
      when it did not handle the value does the typed call follow, to the
      same handler. */
  function TransferFormValue(host: Host, delegates: map<Field, FormDelegate>, dir: Direction,
                             model: ModelRef, field: Field, edit: WWidget): (calls: seq<Event>)
    ensures |calls| == if TransferValue(host, delegates, dir, model, field, edit).handled then 1 else 2
    ensures calls[0] == TransferValue(host, delegates, dir, model, field, edit).calls[0]
    ensures forall e :: e in calls ==>
      e.Transfer? && e.handler == HandlerFor(delegates, field) &&
      e.direction == dir && e.model == model && e.field == field && e.edit == edit
    ensures |calls| == 2 ==> calls[1].variant == Typed
  {
    var first := TransferValue(host, delegates, dir, model, field, edit);
    if first.handled then first.calls
    else first.calls + [Transfer(dir, Typed, HandlerFor(delegates, field), model, field, edit)]
  }

  // ---------------------------------------------------------------------
  // Binding a model

  /** The loop body of setFormModel for one field: install the delegate's
      widget in the template, then its validator in the model. */
  function FieldInstall(host: Host, delegates: map<Field, FormDelegate>, model: ModelRef, field: Field)
    : (r: seq<Event>)
    ensures |r| == if field in delegates then 4 else 2
    ensures r[|r| - 1] == SetValidator(model, field, Validator(host, delegates, field).value)
    ensures r[if field in delegates then 1 else 0] == SetFormWidget(field, FormWidget(host, delegates, field).value)
  {
    var widget := FormWidget(host, delegates, field);
    var validator := Validator(host, delegates, field);
    widget.hooks + [SetFormWidget(field, widget.value)] +
    validator.hooks + [SetValidator(model, field, validator.value)]
  }

  /** One install pass only installs, and only for its own field. */
  lemma FieldInstallEvents(host: Host, delegates: map<Field, FormDelegate>, model: ModelRef, field: Field)
    ensures forall e :: e in FieldInstall(host, delegates, model, field) ==>
      IsInstallEvent(e) && e.field == field
  {
  }

  /** The calls setFormModel makes for the model's fields, in order. */
  function InstallCalls(host: Host, delegates: map<Field, FormDelegate>, model: ModelRef, fields: seq<Field>)
    : (r: seq<Event>)
    ensures 2 * |fields| <= |r| <= 4 * |fields|
    decreases |fields|
  {
    if fields == [] then []
    else
      InstallCalls(host, delegates, model, fields[..|fields| - 1]) +
      FieldInstall(host, delegates, model, fields[|fields| - 1])
  }

  /** Binding installs, for exactly the model's fields, the widget and the
      validator that field's delegate makes (null without a delegate). */
  lemma {:induction false} InstallCallsContents(host: Host, delegates: map<Field, FormDelegate>,
                                               model: ModelRef, fields: seq<Field>, field: Field,
                                               widget: Option<WWidget>, validator: Option<WValidator>)
    ensures SetFormWidget(field, widget) in InstallCalls(host, delegates, model, fields) <==>
      field in fields && widget == FormWidget(host, delegates, field).value
    ensures SetValidator(model, field, validator) in InstallCalls(host, delegates, model, fields) <==>
      field in fields && validator == Validator(host, delegates, field).value
    decreases |fields|
  {
    if fields != [] {
      var init, last := fields[..|fields| - 1], fields[|fields| - 1];
      assert fields == init + [last];
      InstallCallsContents(host, delegates, model, init, field, widget, validator);
      var w, v := FormWidget(host, delegates, last), Validator(host, delegates, last);
      assert FieldInstall(host, delegates, model, last) ==
        w.hooks + [SetFormWidget(last, w.value)] + v.hooks + [SetValidator(model, last, v.value)];
      assert SetFormWidget(field, widget) !in w.hooks && SetFormWidget(field, widget) !in v.hooks;
      assert SetValidator(model, field, validator) !in w.hooks;
      assert SetValidator(model, field, validator) !in v.hooks;
    }
  }

  /** Binding only installs widgets and validators, and only for the
      model's fields. */
  lemma {:induction false} InstallCallsFields(host: Host, delegates: map<Field, FormDelegate>,
                                             model: ModelRef, fields: seq<Field>)
    ensures forall e :: e in InstallCalls(host, delegates, model, fields) ==>
      IsInstallEvent(e) && e.field in fields
    decreases |fields|
  {
    if fields != [] {
      var init, last := fields[..|fields| - 1], fields[|fields| - 1];
      InstallCallsFields(host, delegates, model, init);
      assert forall g :: g in init ==> g in fields;
      FieldInstallEvents(host, delegates, model, last);
    }
  }

  /** A delegate set with setFormDelegate before binding is the one whose
      widget and validator are installed, provided the view action run on
      binding keeps the entries it finds. */
  lemma OverrideUsedOnBind(host: Host, before: map<Field, FormDelegate>, field: Field, d: FormDelegate,
                           persisted: map<Field, FormDelegate>, model: ModelRef, fields: seq<Field>)
    requires field in fields
    requires forall g :: g in WithDelegate(before, field, Some(d)) ==>
      g in persisted && persisted[g] == WithDelegate(before, field, Some(d))[g]
    ensures SetFormWidget(field, host.createFormWidget(d)) in InstallCalls(host, persisted, model, fields)
    ensures SetValidator(model, field, host.createValidator(d)) in InstallCalls(host, persisted, model, fields)
  {
    assert Delegate(WithDelegate(before, field, Some(d)), field) == Some(d);
    InstallCallsContents(host, persisted, model, fields, field,
                         host.createFormWidget(d), host.createValidator(d));
  }

  // ---------------------------------------------------------------------
  // Saving

  /** The calls save() makes on a bound view, given what validate() returns. */
  function SaveEvents(model: ModelRef, valid: bool): (r: seq<Event>)
    ensures |r| == if valid then 5 else 4
    ensures r[0] == UpdateModel(model) && r[1] == Validate(model, valid)
    ensures Signals(r) == [if valid then Saved else ValidationFailed]
    ensures r[|r| - 1] == if valid then Saved else ValidationFailed
    ensures SaveDboValues(model) in r <==> valid
    ensures r[|r| - 2] == UpdateView(model)
  {
    var head := [UpdateModel(model), Validate(model, valid)];
    var tail :=
      if valid then [SaveDboValues(model), UpdateView(model), Saved]
      else [UpdateView(model), ValidationFailed];
    var signal := if valid then Saved else ValidationFailed;
    var quiet := head + tail[..|tail| - 1];
    assert head + tail == quiet + [signal];
    SignalsQuiet(quiet);
    assert quiet + [signal] == (quiet + [signal])[..|quiet|] + [signal];
    head + tail
  }

  // ---------------------------------------------------------------------
  // The view

  /** FormView<C>: its delegate registry, its model (none until bound),
      and the trace of toolkit calls and signal emissions it has made. */
  class FormView {
    /** The toolkit and the derived class's hooks, as the view sees them. */
    const host: Host
    var delegates: map<Field, FormDelegate>
    var model: Option<ModelRef>
    ghost var trace: seq<Event>

    constructor (host: Host)
      ensures this.host == host && delegates == map[] && model == None && trace == []
    {
      this.host := host;
      delegates := map[];
      model := None;
      trace := [];
    }

    /** setFormDelegate: throws once a model is set, leaving the registry
        as it was; otherwise erases, replaces or adds the entry. */
    method SetFormDelegate(field: Field, d: Option<FormDelegate>) returns (r: Outcome)
      modifies this`delegates
      ensures old(model).Some? ==> r == Thrown(DelegatesLockedMessage) && delegates == old(delegates)
      ensures old(model).None? ==> r == Done && delegates == WithDelegate(old(delegates), field, d)
    {
      if model.Some? {
        return Thrown(DelegatesLockedMessage);
      }
      match d {
        case None =>
          if field in delegates {
            delegates := delegates - {field};
          }
        case Some(x) =>
          delegates := delegates[field := x];
      }
      r := Done;
    }

    /** setFormModel: binds the view to `m` for good, lets the view action
        rewrite the registry (its result is `persisted`), installs a widget
        and a validator for each of the model's `fields`, then updates the
        view. */
    method SetFormModel(m: ModelRef, fields: seq<Field>, persisted: map<Field, FormDelegate>)
      modifies this
      ensures model == Some(m) && delegates == persisted
      ensures trace == old(trace) + [PersistViewAction(m)] + InstallCalls(host, persisted, m, fields) + [UpdateView(m)]
      ensures Signals(trace) == Signals(old(trace))
    {
      model := Some(m);
      trace := trace + [PersistViewAction(m)];
      delegates := persisted;
      InstallFields(m, fields);
      trace := trace + [UpdateView(m)];
      BindingQuiet(host, persisted, m, fields, old(trace));
    }

    /** The loop of setFormModel: one install pass per field of the model,
        in the model's order. */
    method InstallFields(m: ModelRef, fields: seq<Field>)
      modifies this`trace
      ensures trace == old(trace) + InstallCalls(host, delegates, m, fields)
    {
      for i := 0 to |fields|
        invariant trace == old(trace) + InstallCalls(host, delegates, m, fields[..i])
      {
        InstallCallsStep(host, delegates, m, fields, i, old(trace));
        InstallField(m, fields[i]);
      }
      assert fields[..|fields|] == fields;
    }

    /** One pass of setFormModel's loop: sets the field's form widget in
        the template, then its validator in the model. */
    method InstallField(m: ModelRef, field: Field)
      modifies this`trace
      ensures trace == old(trace) + FieldInstall(host, delegates, m, field)
    {
      var widget := FormWidget(host, delegates, field);
      trace := trace + widget.hooks + [SetFormWidget(field, widget.value)];
      var validator := Validator(host, delegates, field);
      trace := trace + validator.hooks + [SetValidator(m, field, validator.value)];
    }

    /** updateModelValue(model, field, WWidget*). */
    method UpdateModelValue(m: ModelRef, field: Field, edit: WWidget) returns (handled: bool)
      modifies this`trace
      ensures handled == TransferValue(host, delegates, ToModel, m, field, edit).handled
      ensures trace == old(trace) + TransferValue(host, delegates, ToModel, m, field, edit).calls
    {
      var d := Delegate(delegates, field);
      match d
      case Some(x) =>
        handled := host.delegateTransfer(ToModel, x, m, field, edit);
        trace := trace + [Transfer(ToModel, Generic, ByDelegate(x), m, field, edit)];
      case None =>
        handled := host.baseTransfer(ToModel, m, field, edit);
        trace := trace + [Transfer(ToModel, Generic, ByBase, m, field, edit)];
    }

    /** updateModelValue(model, field, WFormWidget*). */
    method UpdateModelValueTyped(m: ModelRef, field: Field, edit: WWidget)
      modifies this`trace
      ensures trace == old(trace) + TransferFormValue(host, delegates, ToModel, m, field, edit)
    {
      var handled := UpdateModelValue(m, field, edit);
      if handled {
        return;
      }
      var d := Delegate(delegates, field);
      match d
      case Some(x) =>
        trace := trace + [Transfer(ToModel, Typed, ByDelegate(x), m, field, edit)];
      case None =>
        trace := trace + [Transfer(ToModel, Typed, ByBase, m, field, edit)];
    }

    /** updateViewValue(model, field, WWidget*). */
    method UpdateViewValue(m: ModelRef, field: Field, edit: WWidget) returns (handled: bool)
      modifies this`trace
      ensures handled == TransferValue(host, delegates, ToView, m, field, edit).handled
      ensures trace == old(trace) + TransferValue(host, delegates, ToView, m, field, edit).calls
    {
      var d := Delegate(delegates, field);
      match d
      case Some(x) =>
        handled := host.delegateTransfer(ToView, x, m, field, edit);
        trace := trace + [Transfer(ToView, Generic, ByDelegate(x), m, field, edit)];
      case None =>
        handled := host.baseTransfer(ToView, m, field, edit);
        trace := trace + [Transfer(ToView, Generic, ByBase, m, field, edit)];
    }

    /** updateViewValue(model, field, WFormWidget*). */
    method UpdateViewValueTyped(m: ModelRef, field: Field, edit: WWidget)
      modifies this`trace
      ensures trace == old(trace) + TransferFormValue(host, delegates, ToView, m, field, edit)
    {
      var handled := UpdateViewValue(m, field, edit);
      if handled {
        return;
      }
      var d := Delegate(delegates, field);
      match d
      case Some(x) =>
        trace := trace + [Transfer(ToView, Typed, ByDelegate(x), m, field, edit)];
      case None =>
        trace := trace + [Transfer(ToView, Typed, ByBase, m, field, edit)];
    }

    /** save(): copies the view into the model and validates it; saves the
        object and emits `saved` when valid, emits `validationFailed`
        otherwise; the view is updated in both cases. `valid` is what the
        model's validate() returns. */
    method Save(valid: bool)
      requires model.Some?
      modifies this`trace
      ensures trace == old(trace) + SaveEvents(model.value, valid)
      ensures Signals(trace) == Signals(old(trace)) + [if valid then Saved else ValidationFailed]
    {
      var m := model.value;
      trace := trace + [UpdateModel(m)];
      trace := trace + [Validate(m, valid)];
      if valid {
        trace := trace + [SaveDboValues(m)];
        trace := trace + [UpdateView(m)];
        trace := trace + [Saved];
      } else {
        trace := trace + [UpdateView(m)];
        trace := trace + [ValidationFailed];
      }
      assert trace == old(trace) + SaveEvents(m, valid);
      SignalsAppend(old(trace), SaveEvents(m, valid));
    }
  }

  /** One more pass of the binding loop extends its calls by that field's. */
  lemma InstallCallsStep(host: Host, delegates: map<Field, FormDelegate>, model: ModelRef,
                         fields: seq<Field>, i: nat, before: seq<Event>)
    requires i < |fields|
    ensures before + InstallCalls(host, delegates, model, fields[..i]) + FieldInstall(host, delegates, model, fields[i])
      == before + InstallCalls(host, delegates, model, fields[..i + 1])
  {
    assert fields[..i + 1][..i] == fields[..i];
  }

  /** Binding emits no signal. */
  lemma BindingQuiet(host: Host, delegates: map<Field, FormDelegate>, model: ModelRef, fields: seq<Field>,
                     before: seq<Event>)
    ensures Signals(before + [PersistViewAction(model)] + InstallCalls(host, delegates, model, fields) +
                    [UpdateView(model)]) == Signals(before)
  {
    var install := InstallCalls(host, delegates, model, fields);
    InstallCallsQuiet(host, delegates, model, fields);
    SignalsQuiet([PersistViewAction(model)]);
    SignalsQuiet([UpdateView(model)]);
    SignalsAppend(before, [PersistViewAction(model)]);
    SignalsAppend(before + [PersistViewAction(model)], install);
    SignalsAppend(before + [PersistViewAction(model)] + install, [UpdateView(model)]);
  }

  lemma InstallCallsQuiet(host: Host, delegates: map<Field, FormDelegate>,
                          model: ModelRef, fields: seq<Field>)
    ensures Signals(InstallCalls(host, delegates, model, fields)) == []
  {
    var calls := InstallCalls(host, delegates, model, fields);
    InstallCallsFields(host, delegates, model, fields);
    assert forall i :: 0 <= i < |calls| ==> !IsSignal(calls[i]) by {
      forall i | 0 <= i < |calls| ensures !IsSignal(calls[i]) {
        assert calls[i] in calls;
      }
    }
    SignalsQuiet(calls);
  }
}
