/** A plugin registry (relais/dev/mountpoint.py): the first class made
    with the `Mountpoint` metaclass gets a fresh `plugins` list, and every
    class defined below it is appended to that shared list as it is
    defined. Classes have one base here. */
module Mountpoint {

  /** The shared, growing `plugins` list. */
  class PluginList {
    var items: seq<PluginClass>

    constructor ()
      ensures items == []
    {
      items := [];
    }
  }

  /** A class created by the metaclass. */
  class PluginClass {
    const name: string
    const base: PluginClass?
    /** The `plugins` list the class sees: its own or its base's. */
    const plugins: PluginList
    /** Whether the class has `__init_cls__`, defined or inherited. */
    const initCls: bool

    /** The class object as `type.__new__` makes it: a fresh list if no
        `plugins` is inherited, the inherited list otherwise. */
    constructor (name: string, base: PluginClass?, ownInitCls: bool)
      ensures this.name == name && this.base == base
      ensures base == null ==> fresh(plugins) && plugins.items == []
      ensures base != null ==> plugins == base.plugins
      ensures initCls == (ownInitCls || (base != null && base.initCls))
    {
      this.name := name;
      this.base := base;
      if base == null {
        plugins := new PluginList();
        initCls := ownInitCls;
      } else {
        plugins := base.plugins;
        initCls := ownInitCls || base.initCls;
      }
    }

    /** `get_plugins`: one new instance of each registered class, in
        registration order. */
    method GetPlugins() returns (instances: seq<PluginInstance>)
      ensures |instances| == |plugins.items|
      ensures forall i :: 0 <= i < |instances| ==> fresh(instances[i]) && instances[i].cls == plugins.items[i]
      ensures forall i, j :: 0 <= i < j < |instances| ==> instances[i] != instances[j]
    {
      instances := [];
      for k := 0 to |plugins.items|
        invariant |instances| == k
        invariant forall i :: 0 <= i < k ==> fresh(instances[i]) && instances[i].cls == plugins.items[i]
        invariant forall i, j :: 0 <= i < j < k ==> instances[i] != instances[j]
      {
        var instance := new PluginInstance(plugins.items[k]);
        instances := instances + [instance];
      }
    }
  }

  /** An instance of a plugin class. */
  class PluginInstance {
    const cls: PluginClass

    constructor (cls: PluginClass)
      ensures this.cls == cls
    {
      this.cls := cls;
    }
  }

  /** A class statement under the metaclass: `Mountpoint.__init__` either
      sets up the list (for the mount point itself) or appends the new class
      to the inherited list, then calls `__init_cls__` if there is one. */
  method DefineClass(name: string, base: PluginClass?, ownInitCls: bool) returns (cls: PluginClass, initCalled: bool)
    modifies if base == null then {} else {base.plugins}
    ensures fresh(cls) && cls.name == name && cls.base == base
    ensures base == null ==> fresh(cls.plugins) && cls.plugins.items == []
    ensures base != null ==> cls.plugins == base.plugins && cls.plugins.items == old(base.plugins.items) + [cls]
    ensures initCalled <==> ownInitCls || (base != null && base.initCls)
  {
    cls := new PluginClass(name, base, ownInitCls);
    if base != null {
      cls.plugins.items := cls.plugins.items + [cls];
    }
    initCalled := cls.initCls;
  }

  /** A mount point and then its plugins, each deriving from the mount
      point: the list holds exactly the plugins, in definition order, and
      never the mount point. */
  method DefineMountAndPlugins(mountName: string, pluginNames: seq<string>)
    returns (mount: PluginClass, plugins: seq<PluginClass>)
    ensures fresh(mount) && mount.plugins.items == plugins
    ensures |plugins| == |pluginNames|
    ensures forall i :: 0 <= i < |plugins| ==> plugins[i].name == pluginNames[i] && plugins[i].base == mount
    ensures mount !in plugins
  {
    var initCalled;
    mount, initCalled := DefineClass(mountName, null, false);
    plugins := [];
    for k := 0 to |pluginNames|
      invariant mount.plugins.items == plugins && |plugins| == k
      invariant forall i :: 0 <= i < k ==> plugins[i].name == pluginNames[i] && plugins[i].base == mount
      invariant forall i :: 0 <= i < k ==> plugins[i] != mount
    {
      var plugin;
      plugin, initCalled := DefineClass(pluginNames[k], mount, false);
      plugins := plugins + [plugin];
    }
  }
}
