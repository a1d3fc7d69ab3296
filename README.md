# Dbo form view, modelled in Dafny

`Wt::Form::Dbo::FormView<C>` is a template form view whose input widgets and
validators come from per-field form delegates. The view does little itself:

- It keeps a registry from field names to form delegates. `setFormDelegate`
  adds, replaces or (with a null delegate) erases entries, but only until a
  model is bound. After that it throws.
- `setFormModel` binds the view for good. It lets the Dbo view action fill the
  registry, then installs, for every field of the model, the widget and
  validator that the field's delegate makes.
- Values move between widgets and the model through four `updateModelValue` /
  `updateViewValue` overloads. Each uses the field's delegate if there is one,
  and the template form view's default otherwise.
- `save` copies the view into the model and validates it. When the model is
  valid it saves the object and emits `saved`. When it is not, it emits
  `validationFailed`. Either way it updates the view.

The model has two modules:

- `FormHost` (form_host.dfy) is the toolkit side. Delegates, widgets,
  validators and the model are opaque identities. The toolkit's answers (the
  widget or validator a delegate creates, whether a `WWidget*` transfer
  handled the value) are the functions of a `Host` record. Every call the view
  makes into the toolkit, and every signal emission, is an `Event`.
- `DboFormView` (dbo_form_view.dfy) is the header's own logic:
  - Pure functions: the registry lookup and update, the widget and validator
    factories, the two dispatch rules, and the call sequences of binding and
    saving.
  - The class `FormView`: its registry (`delegates`), its model (`model`, none
    until bound) and a ghost `trace` of events. Its methods change these fields
    in place, and their postconditions tie the new state to the functions.

The typed (`WFormWidget*`) overloads first call the view's own `WWidget*`
overload, which uses the delegate, else the base view. They do not start with
the toolkit's typed default. The model follows the code here.

## Model

| member | source | states |
|---|---|---|
| `DboFormView.FormView.constructor` | src/Wt/Form/Dbo/FormView.h:24-27 | A new view has no delegates, no model and has made no calls. |
| `DboFormView.Delegate` | src/Wt/Form/Dbo/FormView.h:217-224 | The lookup yields a delegate exactly when the field is in the registry, and then it is the stored one. Otherwise it yields null. |
| `DboFormView.WithDelegate` | src/Wt/Form/Dbo/FormView.h:64-72 | After the update, the field's lookup is the given delegate, or null for a null argument. Every other field's lookup is unchanged. The key set grows or shrinks by that field. Erasing an absent field leaves the registry as it was. |
| `DboFormView.FormView.SetFormDelegate` | src/Wt/Form/Dbo/FormView.h:58-73 | On a bound view it throws, with the source's message, for any field and any delegate (null or not), and the registry is unchanged. On an unbound view the registry becomes `WithDelegate` of the old one. The model and the trace never change. |
| `DboFormView.FormWidget` | src/Wt/Form/Dbo/FormView.h:191-200 | Without a delegate the result is null and no hook is called. With a delegate the result is whatever the delegate creates, which may be null, and that same value is passed to the customizeFormWidget hook. A non-null result means the field has a delegate. |
| `DboFormView.Validator` | src/Wt/Form/Dbo/FormView.h:204-213 | Without a delegate the result is null and no hook is called. With a delegate the result is whatever the delegate creates, which may be null, and that same value is passed to the customizeValidator hook. A non-null result means the field has a delegate. |
| `DboFormView.HandlerFor` | src/Wt/Form/Dbo/FormView.h:95-100 | A transfer goes to a delegate exactly when the field has one, and then to the stored delegate. Otherwise it goes to the base view. The `WFormWidget*` overloads use the same choice at lines 83-88. |
| `DboFormView.TransferValue` | src/Wt/Form/Dbo/FormView.h:93-101 | The `WWidget*` overloads, in both directions, make exactly one call. It goes to the field's delegate when there is one and to the base view otherwise, and the overload returns that handler's answer. |
| `DboFormView.TransferFormValue` | src/Wt/Form/Dbo/FormView.h:77-89 | The `WFormWidget*` overloads first make the `WWidget*` overload's call. They stop there if it returned true. Otherwise they make exactly one more call, the typed one. Every call goes to the same handler (delegate if present, else base) with the same arguments. |
| `DboFormView.FormView.UpdateModelValue` | src/Wt/Form/Dbo/FormView.h:93-101 | Returns what `TransferValue` says for the model direction and appends exactly its call to the trace. |
| `DboFormView.FormView.UpdateModelValueTyped` | src/Wt/Form/Dbo/FormView.h:77-89 | Appends exactly the calls `TransferFormValue` gives for the model direction. |
| `DboFormView.FormView.UpdateViewValue` | src/Wt/Form/Dbo/FormView.h:121-129 | Returns what `TransferValue` says for the view direction and appends exactly its call to the trace. |
| `DboFormView.FormView.UpdateViewValueTyped` | src/Wt/Form/Dbo/FormView.h:105-117 | Appends exactly the calls `TransferFormValue` gives for the view direction. |
| `DboFormView.FieldInstall` | src/Wt/Form/Dbo/FormView.h:45-46 | One pass of the binding loop makes four calls when the field has a delegate and two when it has none. The widget is set before the validator, the last call sets the validator, and every call concerns that field and only installs. |
| `DboFormView.InstallCalls` | src/Wt/Form/Dbo/FormView.h:44-47 | The binding loop makes between two and four calls per field of the model. |
| `DboFormView.InstallCallsFields` | src/Wt/Form/Dbo/FormView.h:44-47 | Every call the binding loop makes only installs a widget or a validator, and only for one of the model's fields. |
| `DboFormView.FormView.InstallFields` | src/Wt/Form/Dbo/FormView.h:44-47 | The loop appends exactly `InstallCalls` for the model's fields, in the model's order. |
| `DboFormView.FormView.InstallField` | src/Wt/Form/Dbo/FormView.h:45-46 | One pass of the binding loop sets the field's form widget, then its validator, each made by `FormWidget` / `Validator`. |
| `DboFormView.FormView.SetFormModel` | src/Wt/Form/Dbo/FormView.h:34-50 | The view becomes bound to the model, and the registry is whatever the view action left. The calls are the view action, then one install pass per field in the model's order, then a view update. No signal is emitted. |
| `DboFormView.InstallCallsContents` | src/Wt/Form/Dbo/FormView.h:44-47 | Binding sets a form widget `w` for field `f` iff `f` is a field of the model and `w` is what `FormWidget` gives for `f`. The same holds for validators, so a field without a delegate gets null. |
| `DboFormView.OverrideUsedOnBind` | src/Wt/Form/Dbo/FormView.h:34-72 | Suppose a delegate is set with setFormDelegate before binding, and the view action keeps the entries it finds. Then binding installs that delegate's widget and validator for its field. |
| `DboFormView.SaveEvents` | src/Wt/Form/Dbo/FormView.h:131-143 | Save copies the view into the model first, then validates. It makes five calls when validation passed and four otherwise, so each happens once. The object is saved iff validation passed. The view is updated just before the single signal emitted, which is `saved` when validation passed and `validationFailed` otherwise. |
| `DboFormView.FormView.Save` | src/Wt/Form/Dbo/FormView.h:131-143 | Appends exactly `SaveEvents` to the trace, so the view's signals grow by exactly one emission. It needs a bound view. |

## Left out

- Foreign code is not modelled. That covers the view action run by `dummy.persist(action)`, the toolkit's `setFormWidget`, `updateView` and `updateModel`, the delegates' own behaviour, `FormModel::fields()`, `setValidator`, `validate()` and `saveDboValues()`. These are parameters (`persisted`, `fields`, `valid`), `Host` functions, or trace events. Nothing is claimed about what the view action adds or keeps. `OverrideUsedOnBind` states the keeping of existing entries as a hypothesis.
- The model does not prove that removing a delegate before binding falls back to a generated default. That default comes from the view action, which is not modelled. What is proved is that a field with no entry after the view action gets a null widget and validator (`InstallCallsContents`).
- Registry entries are never null here, because `map<Field, FormDelegate>` cannot hold one. The C++ `std::map` of `shared_ptr` could hold a null entry, for example one written by the view action. `setFormDelegate` itself never stores null, since it erases instead.
- `DboFormView.FormView.SetFormModel`: a null model is a type error here, because the source dereferences it.
- `DboFormView.FormView.Save`: requires a bound view, because the source dereferences its null model otherwise.
- A `Host` answer depends only on its arguments. The model's and widgets' current values, which the real calls read and write, are not modelled.
- Virtual dispatch is left out. A subclass could override the `WWidget*` overload that the typed overloads call, and the model always uses this class's version.
- The customization hooks are empty in this class. They are recorded as trace events and are assumed not to swap the widget or validator.
- The constructor's template text, template binding and rendering are framework behaviour and are left out.
- The signal/slot machinery is left out. An emission is a `Saved` or `ValidationFailed` event.
- `shared_ptr` / `unique_ptr` ownership is left out. Delegates, widgets and validators are values.
