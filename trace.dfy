/** The vocabulary shared by the feature engine and the module lifecycle:
    feature classes (used as opaque dependency identifiers), configuration
    fields, and the events that record every call the core makes into code
    outside it (the component's load_feature, UniqueApplication, the
    configuration store, DBus and GObject). */
module Trace {

  datatype Option<T> = None | Some(value: T)

  /** A feature class. `dependencies` is a class attribute in the source;
      `Custom` stands for a direct subclass of Feature that overrides only
      `dependencies`, carrying its own, and keeps the base `__init__` and
      `__finalize__`. */
  datatype FeatureClass =
    | ConfigurationFeature
    | HotkeyFeature
    | Custom(name: string, deps: Option<seq<FeatureClass>>)

  /** A configuration field: only hotkey fields carry an action. */
  datatype Field =
    | HotkeyField(action: string, value: string)
    | OtherField(value: string)

  /** One entry of `config.fields`, in iteration order. */
  datatype NamedField = NamedField(name: string, field: Field)

  datatype Event =
    | InitComponent                            // Component.__init__
    | ClaimIdentity(appId: string)             // UniqueApplication.__init__(id)
    | LoadDep(dep: FeatureClass)               // component.load_feature(dep)
    | Construct(cls: FeatureClass)             // the instance is created
    | Warn                                     // warnings.warn(...)
    | Register                                 // manager.register(), broker signal hooked up
    | SetHotkey(action: string, value: string) // broker.set_hotkey(action, value)
    | Subscribe(field: string)                 // field.connect('value-changed', ...)
    | Emit(action: string)                     // self.emit('hotkey-activated', action)
    | Save                                     // config.save()
    | ThreadsInit                              // gobject.threads_init()
    | RunLoop                                  // mainloop.run()
    | ReleaseIdentity                          // UniqueApplication.quit(self)
    | Finalize(index: nat)                     // _features[index].__finalize__()
    | StopLoop                                 // mainloop.quit()

  /** The append-only record of the outside world's view of the process. */
  class Log {
    var events: seq<Event>

    constructor ()
      ensures events == []
    {
      events := [];
    }
  }
}
