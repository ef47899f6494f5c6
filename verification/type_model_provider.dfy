/**
 * The registry of type models: for each application (by its wire name) a map
 * from type id to type model. The provider keeps a client registry and a
 * server registry and resolves type references against them.
 */
module TypeModelProvider {
  import opened Results
  import opened Decimal
  import opened Metamodel

  /** Applications are keyed by their wire name in the registry. */
  type AppKey = string

  type Registry = map<AppKey, map<TypeId, TypeModel>>

  /** A type reference as the registry sees it. */
  datatype RegistryRef = RegistryRef(app: AppKey, typeId: TypeId)

  /** The applications whose type models the client ships with, in loading order. */
  const CLIENT_APPS: seq<AppKey> :=
    ["accounting", "base", "gossip", "monitor", "storage", "sys", "tutanota", "usage"]

  /** The applications named in a list of loaded (application, models) pairs. */
  function AppsOf(loaded: seq<(AppKey, map<TypeId, TypeModel>)>): set<AppKey>
  {
    set i | 0 <= i < |loaded| :: loaded[i].0
  }

  /**
   * Builds the registry by inserting each loaded application in turn; an
   * application loaded twice keeps its last models. Reading the model files
   * themselves is not part of this model: their parsed contents are the input.
   */
  function ReadTypeModels(loaded: seq<(AppKey, map<TypeId, TypeModel>)>): (r: Registry)
    ensures r.Keys == AppsOf(loaded)
    ensures forall i :: 0 <= i < |loaded| && (forall j :: i < j < |loaded| ==> loaded[j].0 != loaded[i].0)
              ==> r[loaded[i].0] == loaded[i].1
  {
    if |loaded| == 0 then map[]
    else
      var prefix := loaded[..|loaded| - 1];
      var last := loaded[|loaded| - 1];
      var r := ReadTypeModels(prefix)[last.0 := last.1];
      assert AppsOf(loaded) == AppsOf(prefix) + {last.0} by {
        forall a | a in AppsOf(loaded) ensures a in AppsOf(prefix) + {last.0} {
          var i :| 0 <= i < |loaded| && loaded[i].0 == a;
          if i < |loaded| - 1 { assert prefix[i].0 == a; }
        }
      }
      r
  }

  datatype TypeModelProvider = TypeModelProvider(clientAppModels: Registry, serverAppModels: Registry)

  /** A fresh provider: the server models start out as the very client models. */
  function New(clientModels: Registry): (p: TypeModelProvider)
    ensures p.clientAppModels == clientModels
    ensures p.serverAppModels == p.clientAppModels
  {
    TypeModelProvider(clientModels, clientModels)
  }

  /**
   * Resolves a reference against the client models: the application must be
   * registered and must hold the type id.
   */
  function ResolveClientTypeRef(p: TypeModelProvider, ref: RegistryRef): (r: Option<TypeModel>)
    ensures ref.app !in p.clientAppModels ==> r.None?
    ensures ref.app in p.clientAppModels && ref.typeId !in p.clientAppModels[ref.app] ==> r.None?
    ensures r.Some? <==> ref.app in p.clientAppModels && ref.typeId in p.clientAppModels[ref.app]
    ensures r.Some? ==> r.value == p.clientAppModels[ref.app][ref.typeId]
  {
    if ref.app !in p.clientAppModels then None
    else
      var appMap := p.clientAppModels[ref.app];
      if ref.typeId in appMap then Some(appMap[ref.typeId]) else None
  }

  /**
   * Resolves a reference for server-side types. It consults the client models
   * as well, so it always agrees with `ResolveClientTypeRef`.
   */
  function ResolveServerTypeRef(p: TypeModelProvider, ref: RegistryRef): (r: Option<TypeModel>)
    ensures r == ResolveClientTypeRef(p, ref)
  {
    if ref.app !in p.clientAppModels then None
    else
      var appMap := p.clientAppModels[ref.app];
      if ref.typeId in appMap then Some(appMap[ref.typeId]) else None
  }

  /**
   * A fresh provider over the registry read from the loaded applications
   * resolves a reference, on either registry, to the model that the last
   * load of its application holds under the type id, and to nothing when
   * that load has no such type.
   */
  lemma FreshProviderResolvesLoaded(loaded: seq<(AppKey, map<TypeId, TypeModel>)>, i: nat, typeId: TypeId)
    requires i < |loaded|
    requires forall j :: i < j < |loaded| ==> loaded[j].0 != loaded[i].0
    ensures var p := New(ReadTypeModels(loaded));
      var ref := RegistryRef(loaded[i].0, typeId);
      && ResolveClientTypeRef(p, ref) == (if typeId in loaded[i].1 then Some(loaded[i].1[typeId]) else None)
      && ResolveServerTypeRef(p, ref) == ResolveClientTypeRef(p, ref)
  {
  }

  /** A fresh provider resolves no reference into an application that was never loaded. */
  lemma FreshProviderUnknownApp(loaded: seq<(AppKey, map<TypeId, TypeModel>)>, ref: RegistryRef)
    requires ref.app !in AppsOf(loaded)
    ensures ResolveClientTypeRef(New(ReadTypeModels(loaded)), ref).None?
    ensures ResolveServerTypeRef(New(ReadTypeModels(loaded)), ref).None?
  {
  }

  /** Every application the client ships models for is a known application name. */
  lemma ClientAppsAreAppNames(app: AppKey)
    requires app in CLIENT_APPS
    ensures AppNameFromString(app).Success?
  {
  }

  /** The registry built from the shipped applications is keyed by known application names only. */
  lemma ClientRegistryKeysAreAppNames(loaded: seq<(AppKey, map<TypeId, TypeModel>)>, app: AppKey)
    requires |loaded| == |CLIENT_APPS|
    requires forall i :: 0 <= i < |loaded| ==> loaded[i].0 == CLIENT_APPS[i]
    requires app in AppsOf(loaded)
    ensures AppNameFromString(app).Success?
  {
    var i :| 0 <= i < |loaded| && loaded[i].0 == app;
    ClientAppsAreAppNames(CLIENT_APPS[i]);
  }

  /**
   * A type model stored under its own application's wire name and its own id
   * is what resolving its reference yields.
   */
  lemma ResolveOwnTypeRef(p: TypeModelProvider, tm: TypeModel)
    requires AppNameToString(tm.app) in p.clientAppModels
    requires tm.id in p.clientAppModels[AppNameToString(tm.app)]
    requires p.clientAppModels[AppNameToString(tm.app)][tm.id] == tm
    ensures ResolveClientTypeRef(p, RegistryRef(AppNameToString(tm.app), TypeRefOf(tm).typeId)) == Some(tm)
  {
  }
}
