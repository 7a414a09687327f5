/** The REST controller for Application records. Each operation checks its guard before it
    touches the record store; what the store does afterwards is its contract in module Store. */
module Controller {
  import opened AppModel
  import opened Store

  class AppController {
    const store: AppStore
    /** The platform-wide format rule for appIds (shared with cluster and namespace names).
        Its pattern is not part of this model, so the controller is given it as a predicate. */
    const isValidAppId: string -> bool

    constructor (store: AppStore, isValidAppId: string -> bool)
      ensures this.store == store && this.isValidAppId == isValidAppId
    {
      this.store := store;
      this.isValidAppId := isValidAppId;
    }

    /** Creates an Application: a malformed appId and an appId already in use are bad
        requests that never reach the store; otherwise the record is saved under its appId. */
    method Create(dto: App) returns (r: Result<App>)
      requires store.Valid()
      modifies store
      ensures store.Valid()
      ensures r.Ok? <==> isValidAppId(dto.appId) && dto.appId !in old(store.apps)
      ensures !r.Ok? ==> r.BadRequest? && unchanged(store)
      ensures r.Ok? ==>
        && r.value == dto
        && store.apps == old(store.apps)[dto.appId := dto]
        && store.order == old(store.order) + [dto.appId]
        && store.deletions == old(store.deletions)
    {
      if !isValidAppId(dto.appId) {
        return BadRequest;
      }
      var entity := dto;
      var managedEntity := store.FindOne(entity.appId);
      if managedEntity.Some? {
        return BadRequest;
      }
      entity := store.CreateNewApp(entity);
      return Ok(entity);
    }

    /** Deletes the live Application with this appId on behalf of `operator`; an appId with
        no live record is not found and nothing changes. */
    method Delete(appId: string, operator: string) returns (r: Result<()>)
      requires store.Valid()
      modifies store
      ensures store.Valid()
      ensures r.Ok? <==> appId in old(store.apps)
      ensures !r.Ok? ==> r.NotFound? && unchanged(store)
      ensures r.Ok? ==>
        && store.apps == old(store.apps) - {appId}
        && store.order == Without(old(store.order), appId)
        && store.deletions == old(store.deletions) + [Deletion(old(store.apps)[appId], operator)]
    {
      var entity := store.FindOne(appId);
      if entity.None? {
        return NotFound;
      }
      store.Delete(entity.value.appId, operator);
      return Ok(());
    }

    /** Updates an Application: a body whose appId differs from the path's is a bad request
        that never reaches the store; otherwise the body goes to the store unchecked, and the
        store answers not-found for an appId with no live record. */
    method Update(appId: string, app: App) returns (r: Result<()>)
      requires store.Valid()
      modifies store
      ensures store.Valid()
      ensures appId != app.appId ==> r == BadRequest && unchanged(store)
      ensures appId == app.appId ==>
        && (r.Ok? <==> appId in old(store.apps))
        && (r.NotFound? <==> appId !in old(store.apps))
        && store.apps == (if appId in old(store.apps) then old(store.apps)[appId := app] else old(store.apps))
        && store.order == old(store.order)
        && store.deletions == old(store.deletions)
    {
      if appId != app.appId {
        return BadRequest;
      }
      r := store.Update(app);
    }

    /** Lists Applications: with a blank name one page of all live records, otherwise every
        live record with that name, whatever page was asked for. */
    function Find(name: Option<string>, pageable: PageRequest): (r: seq<App>)
      reads store
      requires store.Valid()
      ensures IsBlank(name) ==> r == store.FindAll(pageable) && |r| <= pageable.size
      ensures !IsBlank(name) ==> r == store.FindByName(name.value)
      ensures forall a :: a in r ==> a.appId in store.apps && store.apps[a.appId] == a
      ensures !IsBlank(name) ==>
        forall a :: a in r <==> a.appId in store.apps && store.apps[a.appId] == a && a.name == name.value
    {
      if IsBlank(name) then store.FindAll(pageable) else store.FindByName(name.value)
    }

    /** The live Application with this appId, or not found. */
    function Get(appId: string): (r: Result<App>)
      reads store
      ensures r.NotFound? <==> appId !in store.apps
      ensures !r.BadRequest?
      ensures r.Ok? ==> r.value == store.apps[appId]
      ensures store.Valid() && r.Ok? ==> r.value.appId == appId
    {
      var app := store.FindOne(appId);
      if app.None? then NotFound else Ok(app.value)
    }

    /** Whether no live Application holds this appId. */
    function IsAppIdUnique(appId: string): (r: bool)
      reads store
      ensures r <==> Get(appId).NotFound?
    {
      store.IsAppIdUnique(appId)
    }
  }

  /** A client of the controller: create an Application, read it back, try to create the same
      appId again, delete it, read it again, and create the appId anew. Because lookups see only
      live records, a deleted appId can be taken again. */
  method CreateGetDeleteScenario(isValidAppId: string -> bool, first: App, second: App, operator: string)
    returns (created: Result<App>, fetched: Result<App>, duplicate: Result<App>,
             deleted: Result<()>, afterDelete: Result<App>, recreated: Result<App>)
    requires isValidAppId(first.appId)
    requires second.appId == first.appId
    ensures created == Ok(first)
    ensures fetched == Ok(first)
    ensures duplicate == BadRequest
    ensures deleted == Ok(())
    ensures afterDelete == NotFound
    ensures recreated == Ok(second)
  {
    var store := new AppStore();
    var controller := new AppController(store, isValidAppId);
    created := controller.Create(first);
    fetched := controller.Get(first.appId);
    duplicate := controller.Create(second);
    deleted := controller.Delete(first.appId, operator);
    assert deleted.Ok? && deleted.value == ();
    afterDelete := controller.Get(first.appId);
    recreated := controller.Create(second);
  }
}
