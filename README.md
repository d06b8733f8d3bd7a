# Cream component lifecycle, as an event-trace model

This project models the lifecycle skeleton of a Cream component in Dafny:
how a feature's dependencies are requested before the feature is built, what
the configuration and hotkey features do when they are built and finalized,
and how a `Module` claims its unique identity, runs its main loop and tears
itself down.

Every call the core makes into code outside it is recorded as one `Event` on
a shared, append-only `Log` (module `Trace`). The outside code is
`Component.load_feature`, `UniqueApplication`, the configuration store, DBus
and GObject. Each routine of the source is a method that appends its events
in the order of the Python control flow. Its `ensures` ties the new log to a
specification function of the inputs (`NewEvents`, `HotkeyInitEvents`,
`BindingEvents`, `FinalizeHook`, `QuitEvents`, `MainEvents`). The ordering and
"exactly once per item" properties are proved as lemmas about those
functions.

Modules:

- `Trace` (trace.dfy): feature classes, used as opaque dependency
  identifiers; configuration fields; events; the `Log`.
- `Features` (features.dfy), for cream/features.py: the `dependencies`
  attribute, the `FEATURES` registry, `Feature.__new__`, the two feature
  constructors, `__finalize__`, and the two hotkey callbacks. It also holds a
  `Component` class carrying the component attributes that the features read
  and write. cream/base.py is not part of this model.
- `Cream` (cream.dfy), for cream/__init__.py: `Module.__init__`, `main` and
  `quit`.

The outcomes of external calls are parameters:

- whether the hotkey manager answered (`reachable`);
- the fields the configuration store loads (`stored`);
- how `mainloop.run()` ends (`LoopOutcome`);
- the features that `Component.__init__` attached (`features`), with the `config` and `hotkeys` attributes their constructors set (`config`, `hotkeys`).

## Model

| member | source | states |
|---|---|---|
| `Features.RegistryContents` | cream/features.py:100-103 | The registry maps exactly 'org.cream.config' to the configuration feature and 'org.cream.hotkeys' to the hotkey feature. The hotkey feature's only dependency is the class registered under 'org.cream.config'. The configuration feature has no dependencies. |
| `Features.LoadEventsInOrder` | cream/features.py:24-26 | The dependency loop logs one `LoadDep(d)` per declared entry: the k-th event names the k-th dependency. |
| `Features.ConstructFollowsDependencies` | cream/features.py:22-27 | `__new__` logs the declared dependencies' loads in declaration order, then `Construct(cls)` as the last event, after all of them. |
| `Features.NoDependenciesNoLoads` | cream/features.py:20-24 | When `dependencies` is None or empty, no load is requested: `Construct(cls)` is the only event. |
| `Features.HotkeyLoadsConfigurationFirst` | cream/features.py:54-55 | Building the hotkey feature logs exactly `LoadDep(ConfigurationFeature)` and then `Construct(HotkeyFeature)`. |
| `Features.HotkeyFieldsExactlyOnce` | cream/features.py:84-85 | The `isinstance(field, HotkeyField)` filter keeps each hotkey field exactly as many times as it occurs, and no other field. |
| `Features.BindingsPairUp` | cream/features.py:84-87 | The binding loop logs two events per hotkey field, in iteration order: `SetHotkey(field.action, field.value)`, then `Subscribe(name)`. It logs nothing for other fields. |
| `Features.BindingEventsOnlyBind` | cream/features.py:84-87 | The binding loop emits only `SetHotkey` and `Subscribe` events. |
| `Features.HotkeyInitOutcome` | cream/features.py:74-81 | A warning is logged iff the manager is unreachable, and then it is the only event. The broker registration is logged iff the manager answered. |
| `Features.FinalizeHookSaves` | cream/features.py:29-51 | The base finalizer logs nothing. The configuration finalizer logs one `Save` when `autosave` is set and none otherwise. A finalizer logs nothing but `Save`. |
| `Features.Component.LoadFeature` | cream/features.py:26 | `component.load_feature(dependency)` as an opaque call: it appends `LoadDep(dependency)` and changes nothing else. |
| `Features.Feature.constructor` | cream/features.py:15-16 | A bare instance of the given class, with none of the attributes `__init__` sets. |
| `Features.Feature.New` | cream/features.py:22-27 | Appends exactly `NewEvents(cls)`: the dependency loads, then the construction. Returns a fresh bare instance of `cls`. |
| `Features.Feature.InitConfiguration` | cream/features.py:35-44 | The component gets a configuration for its working directory. The feature shares it and starts with `autosave` true. |
| `Features.Feature.InitHotkey` | cream/features.py:62-81 | Sets the back-reference and `component.hotkeys`. The broker exists iff the manager answered. The log grows by `HotkeyInitEvents` over the component's configuration fields. |
| `Features.Feature.PushBindings` | cream/features.py:84-87 | The loop over `config.fields` appends exactly `BindingEvents(fields)`. |
| `Features.Feature.Instantiate` | cream/features.py:22-27 | `cls(component)`: `__new__`'s events, then the class's `__init__` events. Each class's effect on the component and on every field of the new instance is stated: the configuration feature sets `config` and `autosave` only, the hotkey feature sets the back-reference and broker only, and any other class leaves the instance bare. |
| `Features.Feature.Finalize` | cream/features.py:47-51 | `__finalize__` appends exactly `FinalizeHook` of the feature's class and current `autosave` flag. |
| `Features.Feature.FieldValueChanged` | cream/features.py:90-92 | A field change re-pushes that field's own action and current value. The callback's `value` argument is not used. |
| `Features.Feature.HotkeyActivated` | cream/features.py:95-96 | A broker notification is re-emitted with the same action. |
| `Cream.FinalizeEventsKinds` | cream/__init__.py:59-60 | The finalize loop logs only `Finalize(i)` for indices of the list, plus saves. |
| `Cream.FinalizeEachOnce` | cream/__init__.py:59-60 | Every feature index is finalized exactly once. |
| `Cream.FinalizeInOrder` | cream/__init__.py:59-60 | Features are finalized in increasing list order. |
| `Cream.FinalizeSaves` | cream/__init__.py:59-60 | The loop logs one `Save` per autosaving configuration feature. |
| `Cream.QuitReleasesFirst` | cream/__init__.py:55-60 | `quit` logs `ReleaseIdentity` first, once, and before every `Finalize`. |
| `Cream.QuitFinalizesEachOnce` | cream/__init__.py:59-60 | `quit` logs `Finalize(i)` exactly once for every index of `_features`, and for no other index. |
| `Cream.QuitFinalizesInOrder` | cream/__init__.py:59-60 | `quit` finalizes in increasing list order. |
| `Cream.QuitStopsLast` | cream/__init__.py:59-62 | With a main loop, `StopLoop` is the last event, happens once, and comes after every `Finalize`. Without a main loop it never happens. |
| `Cream.QuitSaves` | cream/__init__.py:55-62 | `quit` saves once per autosaving configuration feature. |
| `Cream.MainThreads` | cream/__init__.py:38-39 | `main` initialises threads iff `enable_threads` is true. |
| `Cream.MainQuitsOnInterrupt` | cream/__init__.py:42-46 | `main` runs `quit` (once) exactly when the loop ends with SystemError or KeyboardInterrupt. |
| `Cream.MainStopsOnInterrupt` | cream/__init__.py:42-46 | `main` stops the main loop exactly when the loop run ends with SystemError or KeyboardInterrupt, through `quit`. |
| `Cream.FinalizeFeatures` | cream/__init__.py:59-60 | The finalize loop appends exactly `FinalizeEvents` over the features' current state, one `Finalize(i)` and that feature's own finalizer events per index. |
| `Cream.Module.constructor` | cream/__init__.py:27-30 | Component initialisation, then the claim of the unique identity with the manifest id. The component keeps the features, `config` and `hotkeys` that Component initialisation produced. |
| `Cream.Module.Run` | cream/__init__.py:33-46 | The log grows by `MainEvents` and the main loop exists afterwards. An exception other than SystemError and KeyboardInterrupt escapes unchanged. |
| `Cream.Module.Quit` | cream/__init__.py:55-62 | The log grows by `QuitEvents` over the features' current state, and `_features` is unchanged. Without a main loop, `self._mainloop` raises AttributeError after the finalizers have run. |

## Left out

- `load_feature`, idempotent activation, registry lookup and `NoSuchFeature` live in cream/base.py, which is not part of this model. `load_feature` is only the `LoadDep` event. The `_features` list is whatever `Component.__init__` attached; the model takes it as a parameter and never appends to it.
- Cycle detection: there is none in the source. The model's dependency loop makes opaque calls, so a cycle cannot show up in it.
- Best-effort teardown: in the source, an exception from a `__finalize__` leaves `quit` with the remaining features unfinalized. `Configuration.save` cannot fail in this model, so that early exit is not modelled. A best-effort drain would go on to finalize the rest; the code stops at the first error, and the model adds no such drain.
- Finalize-at-most-once: an idempotent finalize would make a second call a no-op; the source has no such guard, and neither does the model.
- GObject machinery (`__gsignals__`, `emit`, `threads_init`, `MainLoop`) and DBus IPC (`get_object`, `register`, `connect_to_signal`) are foreign libraries. They are logged events, and a boolean says whether the manager connection succeeded. The broker's registration and its signal hook-up are one `Register` event.
- The `weakref` back-reference is a plain reference.
- `UniqueApplication` internals and its single-instance claim protocol (cream.util.unique) are outside the model. They are the `ClaimIdentity` and `ReleaseIdentity` events.
- `Configuration` persistence, its loading and printing, `warnings`, and the `messages` cached property are I/O and logging sinks. The fields the store loads are a parameter, and `save()` is the `Save` event without its contents.
- The `enable_threads=True` default of `main` is not modelled; Dafny callers always pass the flag.
- Python's method resolution order and its `__new__`/`__init__` protocol are modelled by an explicit `Instantiate`. A subclass of ConfigurationFeature or HotkeyFeature other than those two is not modelled; `Custom` stands only for a direct subclass of `Feature` that overrides only `dependencies`; a subclass that overrides `__init__` or `__finalize__` is not modelled, and the finalizer lemmas (`FinalizeHookSaves`, `FinalizeEventsKinds`) hold for `_features` under that restriction.
- `Features.Feature.InitHotkey` requires that the component already has a configuration, which the dependency on the configuration feature provides in the source. It also requires a bare instance, as `__init__` runs right after `__new__`.
- Broker failures after the manager answered: only the manager's `get_object` is guarded (cream/features.py:74-79). A `DBusException` from `manager.register()`, the broker's `get_object` or `connect_to_signal` (cream/features.py:81-82) escapes `HotkeyFeature.__init__` in the source; in the model a reachable manager always registers and binds.
- Events during the main loop: callbacks dispatched while `mainloop.run()` blocks (the field-change and hotkey-activated callbacks, or a `quit` issued from a callback) cannot appear inside `Run`'s log, which is `RunLoop` followed directly by the events of how the run ended. The callbacks are modelled as separate methods.
- `Features.Feature.FieldValueChanged` requires a broker and a hotkey field: the source connects this callback only to hotkey fields, and only after the broker exists.
