/** The collaborators of the Dbo form view that live in the host toolkit:
    form delegates, widgets, validators and the form model are opaque
    identities here, what the toolkit does with them is either a result of
    a `Host` function or an `Event` appended to the view's trace, and the
    `saved` / `validationFailed` signals are events too. */
module FormHost {

  datatype Option<T> = None | Some(value: T)

  /** A field name of the form model (WFormModel::Field). */
  type Field = string

  /** Opaque identities of toolkit objects the view passes around. */
  datatype FormDelegate = FormDelegate(id: nat)
  datatype WWidget = WWidget(id: nat)
  datatype WValidator = WValidator(id: nat)
  datatype ModelRef = ModelRef(id: nat)

  /** Which way a value moves: from the widget into the model, or back. */
  datatype Direction = ToModel | ToView

  /** The two transfer overloads: the `WWidget*` one reports whether it
      handled the value, the `WFormWidget*` one returns nothing. */
  datatype Variant = Generic | Typed

  /** Who carries out a transfer: the field's form delegate, or the
      template form view's own default. */
  datatype Handler = ByDelegate(delegate: FormDelegate) | ByBase

  /** Calls into the toolkit and signal emissions, in the order they happen. */
  datatype Event =
    | PersistViewAction(model: ModelRef)
    | CustomizeFormWidget(field: Field, widget: Option<WWidget>)
    | CustomizeValidator(field: Field, validator: Option<WValidator>)
    | SetFormWidget(field: Field, formWidget: Option<WWidget>)
    | SetValidator(model: ModelRef, field: Field, modelValidator: Option<WValidator>)
    | Transfer(direction: Direction, variant: Variant, handler: Handler,
               model: ModelRef, field: Field, edit: WWidget)
    | UpdateModel(model: ModelRef)
    | UpdateView(model: ModelRef)
    | Validate(model: ModelRef, valid: bool)
    | SaveDboValues(model: ModelRef)
    | Saved
    | ValidationFailed

  predicate IsSignal(e: Event) {
    e.Saved? || e.ValidationFailed?
  }

  /** The calls setFormModel makes while installing one field. */
  predicate IsInstallEvent(e: Event) {
    e.CustomizeFormWidget? || e.SetFormWidget? || e.CustomizeValidator? || e.SetValidator?
  }

  /** What the toolkit answers when the view calls into it: the widget and
      validator a delegate creates (either may be null), and whether a `WWidget*` transfer by a
      delegate or by the base view handled the value. */
  datatype Host = Host(
    createFormWidget: FormDelegate -> Option<WWidget>,
    createValidator: FormDelegate -> Option<WValidator>,
    delegateTransfer: (Direction, FormDelegate, ModelRef, Field, WWidget) -> bool,
    baseTransfer: (Direction, ModelRef, Field, WWidget) -> bool)

  /** The signal emissions of a trace, in order. */
  function Signals(s: seq<Event>): (r: seq<Event>)
    ensures |r| <= |s|
    ensures forall i :: 0 <= i < |r| ==> IsSignal(r[i])
    decreases |s|
  {
    if s == [] then []
    else
      var init, last := s[..|s| - 1], s[|s| - 1];
      assert s == init + [last];
      Signals(init) + (if IsSignal(last) then [last] else [])
  }

  /** A trace with no emission in it has no signals. */
  lemma {:induction false} SignalsQuiet(s: seq<Event>)
    requires forall i :: 0 <= i < |s| ==> !IsSignal(s[i])
    ensures Signals(s) == []
    decreases |s|
  {
    if s != [] {
      SignalsQuiet(s[..|s| - 1]);
    }
  }

  lemma {:induction false} SignalsAppend(a: seq<Event>, b: seq<Event>)
    ensures Signals(a + b) == Signals(a) + Signals(b)
    decreases |b|
  {
    if b == [] {
      assert a + b == a;
    } else {
      var init, last := b[..|b| - 1], b[|b| - 1];
      assert a + b == (a + init) + [last];
      assert (a + b)[..|a + b| - 1] == a + init;
      SignalsAppend(a, init);
    }
  }
}
