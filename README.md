# Application registry controller (Apollo admin service)

This project models the controller of the Apollo admin service that manages Application
records: the top-level owners under which clusters, namespaces and configuration items live.
The controller creates, deletes, updates, lists and fetches Applications, and answers whether
an appId is still free. Each operation checks a guard before it touches the record store:
- Create rejects a malformed appId, and then an appId already in use, both as bad requests.
- Delete answers not-found for an appId with no live record.
- Update rejects a body whose appId differs from the one in the path.

The model has three modules:
- `AppModel` (`app_model.dfy`) holds the values. These are the `App` record, the operation
  outcome `Result` (`Ok`, `BadRequest`, `NotFound`), page requests, the audit trace of a soft
  delete, and the blank test for the `name` filter.
- `Store` (`app_store.dfy`) holds the record store behind the Application and admin services,
  as class `AppStore`. Its fields are the live records keyed by appId (`apps`), their
  primary-key order (`order`, used by listings) and the trace of soft-deleted rows
  (`deletions`). The service bodies are not part of this model. What the controller relies on
  is written as the contracts of the store's operations: insert under the appId, remove from
  the live view, replace the record. `Valid()` keeps appIds unique among live records and
  every record stored under its own appId.
- `Controller` (`app_controller.dfy`) holds class `AppController` with one method or function
  per endpoint. It also holds a client scenario: create, read back, duplicate create, delete,
  read again, re-create.

The appId format rule (`InputValidator.isValidClusterNamespace`) is shared platform-wide and
its pattern is not part of this model. The controller receives it as the predicate
`isValidAppId`, and every contract holds whatever that predicate is.

Store contract choices, assumed because the service bodies are not part of this model:
- Lookups (`findOne`, `isAppIdUnique`) see only live records. So a deleted appId can be
  created again, and `CreateGetDeleteScenario` proves that.
- `findByName` matches names exactly.
- `findAll` returns page `page` of the live records in primary-key order, with `size` records
  per page.
- `update` of an appId with no live record is a store-level not-found that changes nothing.
- `isBlank` means absent, or made only of characters that Java's `Character.isWhitespace`
  accepts.

## Model

| member | source | states |
|---|---|---|
| `Controller.AppController.Create` | apollo-adminservice/src/main/java/com/ctrip/framework/apollo/adminservice/controller/AppController.java:37-54 | Succeeds iff the appId passes the format rule and has no live record. Any failure is `BadRequest` and leaves the store unchanged, whatever the other fields hold. On success the returned record equals the input, the store maps the appId to it, and every other key and the deletion trace are unchanged. |
| `Controller.AppController.Delete` | apollo-adminservice/src/main/java/com/ctrip/framework/apollo/adminservice/controller/AppController.java:57-63 | Succeeds iff the appId has a live record. Otherwise it answers `NotFound` and nothing changes. On success the appId leaves the live view, all other records stay as they were, and the deleted row is appended to the trace with the operator. |
| `Controller.AppController.Update` | apollo-adminservice/src/main/java/com/ctrip/framework/apollo/adminservice/controller/AppController.java:66-72 | A path appId that differs from the body's is `BadRequest` with no store write. When they are equal, the body goes to the store with no existence check. The record is replaced if live; otherwise the store's `NotFound` is passed on and nothing changes. |
| `Controller.AppController.Find` | apollo-adminservice/src/main/java/com/ctrip/framework/apollo/adminservice/controller/AppController.java:75-84 | A blank name dispatches to the paged list of all records, so at most `size` live records come back. A non-blank name dispatches to the by-name query, which ignores the page and returns exactly the live records with that name. Every result is a live record. |
| `Controller.AppController.Get` | apollo-adminservice/src/main/java/com/ctrip/framework/apollo/adminservice/controller/AppController.java:87-93 | `NotFound` exactly when the appId has no live record. Otherwise it returns the stored record, whose appId is the one asked for. It never answers `BadRequest`, and it only reads the store. |
| `Controller.AppController.IsAppIdUnique` | apollo-adminservice/src/main/java/com/ctrip/framework/apollo/adminservice/controller/AppController.java:95-98 | True exactly when `Get` of that appId would answer `NotFound`. |
| `Controller.CreateGetDeleteScenario` | apollo-adminservice/src/main/java/com/ctrip/framework/apollo/adminservice/controller/AppController.java:37-93 | On an empty store, with a valid appId: create succeeds, get returns the same record, a second create with the same appId is `BadRequest`, delete succeeds, get is then `NotFound`, and a new create of that appId succeeds. |
| `AppModel.IsBlank` | apollo-adminservice/src/main/java/com/ctrip/framework/apollo/adminservice/controller/AppController.java:78 | Blank iff the name is absent or every character is one that Java's `Character.isWhitespace` accepts: absent and empty names are blank, and a name with any other character is not. This is an assumed definition of a helper whose body is not part of this model. |
| `Store.Listing` | apollo-adminservice/src/main/java/com/ctrip/framework/apollo/adminservice/controller/AppController.java:79-81 | The record under each key of the order, index by index, as long as the order. |
| `Store.AppStore.FindOne` | apollo-adminservice/src/main/java/com/ctrip/framework/apollo/adminservice/controller/AppController.java:45-46 | Finds a record exactly when the appId has a live one, and returns that record, stored under its own appId. |
| `Store.AppStore.CreateNewApp` | apollo-adminservice/src/main/java/com/ctrip/framework/apollo/adminservice/controller/AppController.java:50 | Assumed store contract: inserts the record under its absent appId and returns it unchanged. It keeps appIds unique and leaves the other records and the trace alone. |
| `Store.AppStore.Delete` | apollo-adminservice/src/main/java/com/ctrip/framework/apollo/adminservice/controller/AppController.java:62 | Assumed store contract: removes the appId from the live view and from the listing order, and records the row and operator in the deletion trace. |
| `Store.AppStore.Update` | apollo-adminservice/src/main/java/com/ctrip/framework/apollo/adminservice/controller/AppController.java:71 | Assumed store contract: replaces a live record under the body's appId, or answers `NotFound` and changes nothing. |
| `Store.AppStore.FindAll` | apollo-adminservice/src/main/java/com/ctrip/framework/apollo/adminservice/controller/AppController.java:79 | Returns at most `size` records, each a live record. |
| `Store.AppStore.FindByName` | apollo-adminservice/src/main/java/com/ctrip/framework/apollo/adminservice/controller/AppController.java:81 | Returns a record iff it is live and its name equals the query. |
| `Store.AppStore.IsAppIdUnique` | apollo-adminservice/src/main/java/com/ctrip/framework/apollo/adminservice/controller/AppController.java:97 | Assumed store contract: true iff `FindOne` finds no live record for the appId. |
| `Store.AppStore.Live` | apollo-adminservice/src/main/java/com/ctrip/framework/apollo/adminservice/controller/AppController.java:78-82 | The listing both queries filter holds exactly the live records: entry `i` is the record of the `i`-th live appId in primary-key order, one entry per live appId. |
| `Store.WithName` | apollo-adminservice/src/main/java/com/ctrip/framework/apollo/adminservice/controller/AppController.java:81 | Keeps a record iff it is in the input and has exactly the given name, and never grows the input. |
| `Store.Page` | apollo-adminservice/src/main/java/com/ctrip/framework/apollo/adminservice/controller/AppController.java:79 | Returns at most `size` records, entry `i` being record `page*size + i` of the listing. A page that lies wholly inside the listing is full. |
| `Store.EveryRecordIsOnAPage` | apollo-adminservice/src/main/java/com/ctrip/framework/apollo/adminservice/controller/AppController.java:79 | Paging skips nothing: record `i` is entry `i % size` of page `i / size`. |
| `Store.Without` | apollo-adminservice/src/main/java/com/ctrip/framework/apollo/adminservice/controller/AppController.java:62 | Removing a key from the listing order keeps exactly the other keys and keeps them free of duplicates; an absent key leaves the order as it is. |

## Left out

- HTTP routing (request mappings, path variables, request parameters, bodies) is transport
  plumbing; each endpoint is a method or function taking its inputs directly.
- The appId format rule itself: its pattern and length bound are not part of this model, so
  it is a predicate the controller is given.
- The default cluster and namespaces that the admin service creates beside a new Application
  are not part of this model; `CreateNewApp` only inserts the record.
- Audit columns (creator, modifier, timestamps) and the numeric primary key are left out. The
  controller deletes by the primary key of the record it just found; the model deletes by that
  record's appId, which identifies the same live row.
- A requested sort order is not modelled; pages are cut from the primary-key order.
- The copy between the wire object and the entity is the identity on one `App` datatype.
- Null values are not modelled: an absent `name` filter is `None`, but appIds are always
  strings. So an update body with a null appId, which the source rejects as a mismatch, has no
  counterpart.
- The race between the existence check and the insert in Create belongs to the database's
  concurrency and is out of scope. The model is sequential.
- Exception message texts are left out; only the kind of failure (`BadRequest`, `NotFound`)
  is kept.
- Infrastructure failures of the store (unavailable database, constraint violations) are left
  out. The store operations always succeed within their contracts.
