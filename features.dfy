/** cream/features.py: feature classes, their dependency loop, their
    constructors and finalizers, and the FEATURES registry. */
module Features {
  import opened Trace

  /** The `dependencies` class attribute: None on Feature itself (and so on
      ConfigurationFeature, which inherits it), a one-element tuple holding
      the configuration feature class on HotkeyFeature. */
  function Dependencies(cls: FeatureClass): Option<seq<FeatureClass>>
  {
    match cls
    case ConfigurationFeature => None
    case HotkeyFeature => Some([ConfigurationFeature])
    case Custom(_, deps) => deps
  }

  /** The dependencies `__new__` walks: `if cls.dependencies:` treats None
      and the empty tuple alike. */
  function Declared(deps: Option<seq<FeatureClass>>): seq<FeatureClass>
  {
    match deps
    case None => []
    case Some(ds) => ds
  }

  /** The FEATURES registry as populated by this file. */
  const Registry: map<string, FeatureClass> :=
    map["org.cream.config" := ConfigurationFeature, "org.cream.hotkeys" := HotkeyFeature]

  datatype Configuration = Configuration(workingDirectory: string, fields: seq<NamedField>)

  /** What a finalizer depends on: the feature's class and its autosave flag. */
  datatype FeatureView = FeatureView(cls: FeatureClass, autosave: bool)

  // ---------------------------------------------------------------------
  // What each routine appends to the log

  /** The load_feature calls of the dependency loop, one per entry. */
  function LoadEvents(ds: seq<FeatureClass>): seq<Event>
  {
    if ds == [] then [] else LoadEvents(ds[..|ds| - 1]) + [LoadDep(ds[|ds| - 1])]
  }

  /** Feature.__new__: dependencies first, then the instance. */
  function NewEvents(cls: FeatureClass): seq<Event>
  {
    LoadEvents(Declared(Dependencies(cls))) + [Construct(cls)]
  }

  /** The hotkey fields among `fields`, in iteration order. */
  function HotkeyFields(fs: seq<NamedField>): seq<NamedField>
  {
    if fs == [] then []
    else HotkeyFields(fs[..|fs| - 1]) + (if fs[|fs| - 1].field.HotkeyField? then [fs[|fs| - 1]] else [])
  }

  /** What the binding loop of HotkeyFeature.__init__ does for one field. */
  function Bind(nf: NamedField): seq<Event>
  {
    match nf.field
    case HotkeyField(action, value) => [SetHotkey(action, value), Subscribe(nf.name)]
    case OtherField(_) => []
  }

  function BindingEvents(fs: seq<NamedField>): seq<Event>
  {
    if fs == [] then [] else BindingEvents(fs[..|fs| - 1]) + Bind(fs[|fs| - 1])
  }

  /** HotkeyFeature.__init__: a warning and nothing else when the manager
      cannot be reached; otherwise registration and the bindings. */
  function HotkeyInitEvents(reachable: bool, fs: seq<NamedField>): seq<Event>
  {
    if reachable then [Register] + BindingEvents(fs) else [Warn]
  }

  /** What `__init__` appends once the instance exists. */
  function InitEvents(cls: FeatureClass, reachable: bool, config: Option<Configuration>): seq<Event>
  {
    match config
    case Some(c) => if cls == HotkeyFeature then HotkeyInitEvents(reachable, c.fields) else []
    case None => []
  }

  /** `__finalize__`: ConfigurationFeature saves when autosave is set; the
      base class does nothing. */
  function FinalizeHook(v: FeatureView): seq<Event>
  {
    if v.cls == ConfigurationFeature && v.autosave then [Save] else []
  }

  // ---------------------------------------------------------------------
  // Properties

  lemma RegistryContents()
    ensures Registry.Keys == {"org.cream.config", "org.cream.hotkeys"}
    ensures Registry["org.cream.config"] == ConfigurationFeature
    ensures Registry["org.cream.hotkeys"] == HotkeyFeature
    ensures Dependencies(Registry["org.cream.hotkeys"]) == Some([Registry["org.cream.config"]])
    ensures Dependencies(Registry["org.cream.config"]) == None
  {
  }

  lemma {:induction false} LoadEventsInOrder(ds: seq<FeatureClass>)
    ensures |LoadEvents(ds)| == |ds|
    ensures forall k :: 0 <= k < |ds| ==> LoadEvents(ds)[k] == LoadDep(ds[k])
  {
    if ds != [] {
      LoadEventsInOrder(ds[..|ds| - 1]);
    }
  }

  /** One LoadDep per declared dependency, in declaration order, and the
      instance only after all of them. */
  lemma ConstructFollowsDependencies(cls: FeatureClass)
    ensures var ds, r := Declared(Dependencies(cls)), NewEvents(cls);
      |r| == |ds| + 1 && r[|ds|] == Construct(cls) &&
      (forall k :: 0 <= k < |ds| ==> r[k] == LoadDep(ds[k]))
  {
    LoadEventsInOrder(Declared(Dependencies(cls)));
  }

  lemma NoDependenciesNoLoads(cls: FeatureClass)
    requires Dependencies(cls) == None || Dependencies(cls) == Some([])
    ensures NewEvents(cls) == [Construct(cls)]
  {
  }

  /** The configuration feature is requested before the hotkey feature is built. */
  lemma HotkeyLoadsConfigurationFirst()
    ensures NewEvents(HotkeyFeature) == [LoadDep(ConfigurationFeature), Construct(HotkeyFeature)]
  {
    ConstructFollowsDependencies(HotkeyFeature);
  }

  /** Every hotkey field is kept as often as it occurs; no other field is. */
  lemma {:induction false} HotkeyFieldsExactlyOnce(fs: seq<NamedField>)
    ensures forall nf :: multiset(HotkeyFields(fs))[nf] == if nf.field.HotkeyField? then multiset(fs)[nf] else 0
  {
    if fs != [] {
      var init := fs[..|fs| - 1];
      HotkeyFieldsExactlyOnce(init);
      assert fs == init + [fs[|fs| - 1]];
    }
  }

  /** Each hotkey field gets one SetHotkey with its own action and value,
      followed by one Subscribe with its name, in iteration order. */
  lemma {:induction false} BindingsPairUp(fs: seq<NamedField>)
    ensures var b, h := BindingEvents(fs), HotkeyFields(fs);
      |b| == 2 * |h| &&
      forall k :: 0 <= k < |h| ==>
        h[k].field.HotkeyField? &&
        b[2 * k] == SetHotkey(h[k].field.action, h[k].field.value) && b[2 * k + 1] == Subscribe(h[k].name)
  {
    if fs != [] {
      BindingsPairUp(fs[..|fs| - 1]);
    }
  }

  lemma {:induction false} BindingEventsOnlyBind(fs: seq<NamedField>)
    ensures forall e :: e in BindingEvents(fs) ==> e.SetHotkey? || e.Subscribe?
  {
    if fs != [] {
      BindingEventsOnlyBind(fs[..|fs| - 1]);
    }
  }

  /** Degraded mode: one warning and nothing else exactly when the manager
      is unreachable; a connected feature registers and never warns. */
  lemma HotkeyInitOutcome(reachable: bool, fs: seq<NamedField>)
    ensures var r := HotkeyInitEvents(reachable, fs);
      (Warn in r <==> !reachable) && (Register in r <==> reachable) &&
      (!reachable ==> r == [Warn])
  {
    BindingEventsOnlyBind(fs);
  }

  lemma FinalizeHookSaves(v: FeatureView)
    ensures v.cls != ConfigurationFeature ==> FinalizeHook(v) == []
    ensures v.cls == ConfigurationFeature ==> multiset(FinalizeHook(v))[Save] == (if v.autosave then 1 else 0)
    ensures forall e :: e in FinalizeHook(v) ==> e == Save
  {
  }

  // ---------------------------------------------------------------------
  // State

  /** The attributes of cream.base.Component that the features read and
      write (cream/base.py is not part of this model). */
  class Component {
    const workingDirectory: string
    var features: seq<Feature>
    var config: Option<Configuration>
    var hotkeys: Feature?

    /** The component as Component initialisation leaves it: the features it
        attached, and the `config` and `hotkeys` attributes those features'
        constructors set (None and null when no such feature was attached). */
    constructor (workingDirectory: string, features: seq<Feature>,
                 config: Option<Configuration>, hotkeys: Feature?)
      ensures this.workingDirectory == workingDirectory && this.features == features
      ensures this.config == config && this.hotkeys == hotkeys
    {
      this.workingDirectory := workingDirectory;
      this.features := features;
      this.config := config;
      this.hotkeys := hotkeys;
    }

    /** load_feature, seen from the features: an opaque call. */
    method LoadFeature(log: Log, dep: FeatureClass)
      modifies log
      ensures log.events == old(log.events) + [LoadDep(dep)]
    {
      log.events := log.events + [LoadDep(dep)];
    }
  }

  class Feature {
    const cls: FeatureClass
    var autosave: bool
    var config: Option<Configuration>
    /** The weak back-reference to the owning component, as a plain one. */
    var owner: Component?
    /** Set once the manager answered and the broker was obtained. */
    var hasBroker: bool

    /** A bare instance, before `__init__` has run. */
    constructor (cls: FeatureClass)
      ensures this.cls == cls && !autosave && config == None && owner == null && !hasBroker
    {
      this.cls := cls;
      autosave := false;
      config := None;
      owner := null;
      hasBroker := false;
    }

    function View(): FeatureView
      reads this
    {
      FeatureView(cls, autosave)
    }

    /** Feature.__new__: ask the component for every declared dependency,
        then create the instance. */
    static method New(cls: FeatureClass, component: Component, log: Log) returns (f: Feature)
      modifies log
      ensures fresh(f) && f.cls == cls && !f.autosave && f.config == None && f.owner == null && !f.hasBroker
      ensures log.events == old(log.events) + NewEvents(cls)
    {
      var deps := Dependencies(cls);
      if deps.Some? && deps.value != [] {
        var ds := deps.value;
        for i := 0 to |ds|
          invariant log.events == old(log.events) + LoadEvents(ds[..i])
        {
          assert ds[..i + 1][..i] == ds[..i];
          component.LoadFeature(log, ds[i]);
        }
        assert ds[..|ds|] == ds;
      }
      f := new Feature(cls);
      log.events := log.events + [Construct(cls)];
    }

    /** ConfigurationFeature.__init__: open the configuration of the
        component's working directory (whose stored fields are `stored`),
        share it, and switch autosave on. */
    method InitConfiguration(component: Component, stored: seq<NamedField>)
      requires cls == ConfigurationFeature
      modifies this, component`config
      ensures component.config == Some(Configuration(component.workingDirectory, stored))
      ensures config == component.config && autosave
      ensures owner == old(owner) && hasBroker == old(hasBroker)
    {
      component.config := Some(Configuration(component.workingDirectory, stored));
      config := component.config;
      autosave := true;
    }

    /** HotkeyFeature.__init__. The configuration feature has already been
        loaded by the dependency loop, so the component has a configuration. */
    method InitHotkey(component: Component, log: Log, reachable: bool)
      requires cls == HotkeyFeature && component.config.Some? && !hasBroker
      modifies this, component`hotkeys, log
      ensures owner == component && component.hotkeys == this
      ensures hasBroker == reachable
      ensures log.events == old(log.events) + HotkeyInitEvents(reachable, component.config.value.fields)
      ensures autosave == old(autosave) && config == old(config)
    {
      owner := component;
      owner.hotkeys := this;
      if !reachable {
        log.events := log.events + [Warn];
        return;
      }
      hasBroker := true;
      log.events := log.events + [Register];
      PushBindings(log, owner.config.value.fields);
    }

    /** The loop over `config.fields` in HotkeyFeature.__init__: push each
        hotkey field's binding to the broker and subscribe to its changes. */
    method PushBindings(log: Log, fs: seq<NamedField>)
      requires hasBroker
      modifies log
      ensures log.events == old(log.events) + BindingEvents(fs)
    {
      for i := 0 to |fs|
        invariant log.events == old(log.events) + BindingEvents(fs[..i])
      {
        assert fs[..i + 1][..i] == fs[..i];
        var nf := fs[i];
        if nf.field.HotkeyField? {
          log.events := log.events + [SetHotkey(nf.field.action, nf.field.value)];
          log.events := log.events + [Subscribe(nf.name)];
        }
      }
      assert fs[..|fs|] == fs;
    }

    /** `cls(component)`: `__new__`, then the class's `__init__`. */
    static method Instantiate(cls: FeatureClass, component: Component, log: Log,
                              stored: seq<NamedField>, reachable: bool) returns (f: Feature)
      requires cls == HotkeyFeature ==> component.config.Some?
      modifies component`config, component`hotkeys, log
      ensures fresh(f) && f.cls == cls
      ensures cls == ConfigurationFeature ==>
        component.config == Some(Configuration(component.workingDirectory, stored)) &&
        f.config == component.config && f.autosave
      ensures cls == HotkeyFeature ==> f.owner == component && component.hotkeys == f && f.hasBroker == reachable
      ensures cls != ConfigurationFeature ==> !f.autosave && f.config == None
      ensures cls != HotkeyFeature ==> f.owner == null && !f.hasBroker
      ensures cls != ConfigurationFeature ==> component.config == old(component.config)
      ensures cls != HotkeyFeature ==> component.hotkeys == old(component.hotkeys)
      ensures log.events == old(log.events) + NewEvents(cls) + InitEvents(cls, reachable, old(component.config))
    {
      f := Feature.New(cls, component, log);
      if cls == ConfigurationFeature {
        f.InitConfiguration(component, stored);
      } else if cls == HotkeyFeature {
        f.InitHotkey(component, log, reachable);
      }
    }

    /** `__finalize__`, as overridden by the feature's class. */
    method Finalize(log: Log)
      modifies log
      ensures log.events == old(log.events) + FinalizeHook(View())
    {
      if cls == ConfigurationFeature && autosave {
        log.events := log.events + [Save];
      }
    }

    /** configuration_field_value_changed_cb: re-push the field's current
        binding (the `value` argument is not used). Connected only to hotkey
        fields, and only once the broker exists. */
    method FieldValueChanged(log: Log, field: Field, value: string)
      requires hasBroker && field.HotkeyField?
      modifies log
      ensures log.events == old(log.events) + [SetHotkey(field.action, field.value)]
    {
      log.events := log.events + [SetHotkey(field.action, field.value)];
    }

    /** hotkey_activated_cb: re-emit the broker's notification locally. */
    method HotkeyActivated(log: Log, action: string)
      modifies log
      ensures log.events == old(log.events) + [Emit(action)]
    {
      log.events := log.events + [Emit(action)];
    }
  }
}
