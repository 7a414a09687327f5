/** The record store behind the controller: the Application service and the admin service
    over the Application table. Their bodies belong to the service layer, so what the
    controller relies on is stated here as the contracts of the store's operations. */
module Store {
  import opened AppModel

  predicate NoDuplicates(s: seq<string>)
  {
    forall i, j :: 0 <= i < j < |s| ==> s[i] != s[j]
  }

  /** `order` with `k` taken out. */
  function Without(order: seq<string>, k: string): (r: seq<string>)
    ensures forall x :: x in r <==> x in order && x != k
    ensures NoDuplicates(order) ==> NoDuplicates(r)
    ensures |r| <= |order|
    ensures k !in order ==> r == order
  {
    if order == [] then []
    else if order[0] == k then Without(order[1..], k)
    else
      var rest := Without(order[1..], k);
      assert NoDuplicates(order) ==> order[0] !in order[1..] && NoDuplicates(order[1..]) by {
        if NoDuplicates(order) {
          forall i | 0 <= i < |order[1..]| ensures order[1..][i] != order[0] {
            assert order[1..][i] == order[i + 1];
          }
        }
      }
      [order[0]] + rest
  }

  /** The records stored under the keys of `order`, in that order. */
  function Listing(order: seq<string>, apps: map<string, App>): (r: seq<App>)
    requires forall k :: k in order ==> k in apps
    ensures |r| == |order|
    ensures forall i :: 0 <= i < |order| ==> r[i] == apps[order[i]]
  {
    if order == [] then [] else [apps[order[0]]] + Listing(order[1..], apps)
  }

  /** The records of `xs` whose name is exactly `name`, in their order in `xs`. */
  function WithName(xs: seq<App>, name: string): (r: seq<App>)
    ensures forall a :: a in r <==> a in xs && a.name == name
    ensures |r| <= |xs|
  {
    if xs == [] then []
    else if xs[0].name == name then [xs[0]] + WithName(xs[1..], name)
    else WithName(xs[1..], name)
  }

  /** Page `p.page` of `xs` when `xs` is cut into pages of `p.size` records. */
  function Page(xs: seq<App>, p: PageRequest): (r: seq<App>)
    ensures |r| <= p.size
    ensures forall a :: a in r ==> a in xs
    ensures r != [] ==> p.page * p.size + |r| <= |xs|
    ensures forall i :: 0 <= i < |r| ==> r[i] == xs[p.page * p.size + i]
    ensures p.page * p.size + p.size <= |xs| ==> |r| == p.size
  {
    var lo := p.page * p.size;
    if lo >= |xs| then []
    else if lo + p.size <= |xs| then xs[lo .. lo + p.size]
    else xs[lo..]
  }

  /** No record is skipped by paging: record `i` is entry `i % size` of page `i / size`. */
  lemma EveryRecordIsOnAPage(xs: seq<App>, size: nat, i: nat)
    requires 0 < size && i < |xs|
    ensures var p := Page(xs, PageRequest(i / size, size));
      i % size < |p| && p[i % size] == xs[i]
  {
    var lo := (i / size) * size;
    assert lo + i % size == i;
    assert lo <= i;
  }

  class AppStore {
    /** The live (not deleted) records, keyed by appId. */
    var apps: map<string, App>
    /** The live appIds in primary-key (creation) order, which is the order listings use. */
    var order: seq<string>
    /** The rows marked deleted, oldest first, with the operator who deleted them. */
    var deletions: seq<Deletion>

    ghost predicate Valid()
      reads this
    {
      && NoDuplicates(order)
      && (forall k :: k in order <==> k in apps)
      && (forall k :: k in apps ==> apps[k].appId == k)
    }

    constructor ()
      ensures Valid()
      ensures apps == map[] && order == [] && deletions == []
    {
      apps, order, deletions := map[], [], [];
    }

    /** The live record with this appId, if there is one. */
    function FindOne(appId: string): (r: Option<App>)
      reads this
      ensures r.Some? <==> appId in apps
      ensures r.Some? ==> r.value == apps[appId]
      ensures Valid() && r.Some? ==> r.value.appId == appId
    {
      if appId in apps then Some(apps[appId]) else None
    }

    /** No live record holds this appId. */
    function IsAppIdUnique(appId: string): (r: bool)
      reads this
      ensures r <==> FindOne(appId).None?
    {
      appId !in apps
    }

    /** Every live record, in primary-key order. */
    function Live(): (r: seq<App>)
      reads this
      requires Valid()
      ensures |r| == |order|
      ensures forall i :: 0 <= i < |r| ==> r[i] == apps[order[i]]
      ensures forall a :: a in r <==> a.appId in apps && apps[a.appId] == a
    {
      Listing(order, apps)
    }

    /** One page of the live records. */
    function FindAll(p: PageRequest): (r: seq<App>)
      reads this
      requires Valid()
      ensures |r| <= p.size
      ensures forall a :: a in r ==> a.appId in apps && apps[a.appId] == a
    {
      Page(Live(), p)
    }

    /** Every live record with exactly this name. */
    function FindByName(name: string): (r: seq<App>)
      reads this
      requires Valid()
      ensures forall a :: a in r <==> a.appId in apps && apps[a.appId] == a && a.name == name
    {
      WithName(Live(), name)
    }

    /** Saves a new record under its appId; the saved record is returned. */
    method CreateNewApp(app: App) returns (saved: App)
      requires Valid()
      requires app.appId !in apps
      modifies this
      ensures Valid()
      ensures saved == app
      ensures apps == old(apps)[app.appId := app]
      ensures order == old(order) + [app.appId]
      ensures deletions == old(deletions)
    {
      apps := apps[app.appId := app];
      order := order + [app.appId];
      saved := app;
    }

    /** Marks the live record with this appId deleted by `operator`: it leaves the live view
        and its row is kept in the deletion trace. */
    method Delete(appId: string, operator: string)
      requires Valid()
      requires appId in apps
      modifies this
      ensures Valid()
      ensures apps == old(apps) - {appId}
      ensures order == Without(old(order), appId)
      ensures deletions == old(deletions) + [Deletion(old(apps)[appId], operator)]
    {
      deletions := deletions + [Deletion(apps[appId], operator)];
      apps := apps - {appId};
      order := Without(order, appId);
    }

    /** Replaces the live record stored under `app.appId` by `app`; a missing record is a
        not-found failure that changes nothing. */
    method Update(app: App) returns (r: Result<()>)
      requires Valid()
      modifies this
      ensures Valid()
      ensures r.Ok? <==> app.appId in old(apps)
      ensures r.NotFound? <==> app.appId !in old(apps)
      ensures apps == if app.appId in old(apps) then old(apps)[app.appId := app] else old(apps)
      ensures order == old(order) && deletions == old(deletions)
    {
      if app.appId in apps {
        apps := apps[app.appId := app];
        r := Ok(());
      } else {
        r := NotFound;
      }
    }
  }
}
