/**
 * The storefront hook (src/utils/useStore.js): which store a visitor sees for a slug.
 * With no slug it is the default store; otherwise a franchise user whose store name is
 * the slug, then a store document under the slug; failing both, an error. Only with a
 * store is the featured product fetched, and loading ends on every path.
 */
module UseStore {
  import opened Wrappers
  import opened Docs
  import opened AuthContext

  const DefaultStoreName := "SnuliHub Store"
  const DefaultStoreSlug := "snulihub"
  const StoreNotFound := "Store not found"
  const LoadFailed := "Error loading store data"
  const CurrentStoreName := "currentStoreName"

  /** The `franchiseId` key of the store data. */
  const FranchiseId := Other("franchiseId")

  /** The store shown when the route carries no slug. */
  function DefaultStore(): (d: Doc)
    ensures d.Keys == {StoreName, StoreSlug} && FranchiseId !in d
    ensures d[StoreName] == Str(DefaultStoreName) && d[StoreSlug] == Str(DefaultStoreSlug)
  {
    map[StoreName := Str(DefaultStoreName), StoreSlug := Str(DefaultStoreSlug)]
  }

  /** `getUserByStoreName`: the position of the first user whose `storeName` is the slug. */
  function FirstWithStoreName(rows: seq<Row>, slug: string): (r: Option<nat>)
    ensures r.Some? ==> (r.value < |rows| && HasStr(rows[r.value].data, StoreName, slug)
                         && forall j :: 0 <= j < r.value ==> !HasStr(rows[j].data, StoreName, slug))
    ensures r.None? ==> forall j :: 0 <= j < |rows| ==> !HasStr(rows[j].data, StoreName, slug)
  {
    if rows == [] then None
    else if HasStr(rows[0].data, StoreName, slug) then Some(0)
    else match FirstWithStoreName(rows[1..], slug)
      case None => None
      case Some(i) => Some(i + 1)
  }

  /**
   * The store data built from that user's document: its store name, its slug or else the
   * requested one, and the `id` field of the document's data as the franchise (a field
   * the document lacks stays undefined).
   */
  function FromUser(data: Doc, slug: string): (d: Doc)
    ensures StoreSlug in d && (StoreName in d <==> StoreName in data)
    ensures StoreName in data ==> d[StoreName] == data[StoreName]
    ensures d[StoreSlug] == (if FieldTruthy(data, StoreSlug) then data[StoreSlug] else Str(slug))
    ensures FranchiseId in d <==> Id in data
    ensures Id in data ==> d[FranchiseId] == data[Id]
  {
    var base := map[StoreSlug := Or(data, StoreSlug, Str(slug))];
    var named := if StoreName in data then base[StoreName := data[StoreName]] else base;
    if Id in data then named[FranchiseId := data[Id]] else named
  }

  /** Where the store came from, or that neither lookup found one. */
  datatype Resolution = Resolved(store: Doc, fromStoreDoc: bool) | NotFound

  /**
   * The fallback chain: the default store, the user found by store name, the store
   * document under the slug. A lookup that throws ends the chain with its error.
   */
  function Resolve(storeSlug: Option<string>, users: Result<seq<Row>>, stores: Result<map<string, Doc>>)
    : (r: Result<Resolution>)
    ensures r.Failure? ==> (users.Failure? && r.error == users.error) || (stores.Failure? && r.error == stores.error)
    ensures (r.Success? && r.value.Resolved? && r.value.fromStoreDoc) ==>
      (Present(storeSlug) && stores.Success? && storeSlug.value in stores.value
       && r.value.store == stores.value[storeSlug.value])
  {
    if !Present(storeSlug) then Success(Resolved(DefaultStore(), false))
    else if users.Failure? then Failure(users.error)
    else match FirstWithStoreName(users.value, storeSlug.value)
      case Some(i) => Success(Resolved(FromUser(users.value[i].data, storeSlug.value), false))
      case None =>
        if stores.Failure? then Failure(stores.error)
        else if storeSlug.value in stores.value then Success(Resolved(stores.value[storeSlug.value], true))
        else Success(NotFound)
  }

  /** `err.message || 'Error loading store data'` */
  function ErrorText(message: string): (t: string)
    ensures t != ""
    ensures message != "" ==> t == message
  {
    if message != "" then message else LoadFailed
  }

  /** `String(store.storeName)` for the session; a missing name is the string 'undefined'. */
  function NameText(store: Doc): string {
    if StoreName !in store then "undefined" else if store[StoreName].Str? then store[StoreName].s else ""
  }

  /** Without a slug the default store is used and no lookup is consulted. */
  lemma DefaultWithoutSlug(storeSlug: Option<string>, users: Result<seq<Row>>, stores: Result<map<string, Doc>>)
    requires !Present(storeSlug)
    ensures Resolve(storeSlug, users, stores) == Success(Resolved(DefaultStore(), false))
    ensures FranchiseId !in DefaultStore()
  {
  }

  /**
   * A user whose store name is the slug takes precedence over any store document: the
   * franchise is that user's `id`, and the slug falls back to the requested one.
   */
  lemma UserTakesPrecedence(slug: string, rows: seq<Row>, stores: Result<map<string, Doc>>, j: nat)
    requires slug != "" && j < |rows| && HasStr(rows[j].data, StoreName, slug)
    ensures var r := Resolve(Some(slug), Success(rows), stores);
      r.Success? && r.value.Resolved? && !r.value.fromStoreDoc
      && r.value.store[StoreName] == Str(slug)
      && r.value.store[StoreSlug] == (if FieldTruthy(rows[FirstWithStoreName(rows, slug).value].data, StoreSlug)
                                      then rows[FirstWithStoreName(rows, slug).value].data[StoreSlug] else Str(slug))
      && (FranchiseId in r.value.store <==> Id in rows[FirstWithStoreName(rows, slug).value].data)
  {
    assert FirstWithStoreName(rows, slug).Some?;
  }

  /** With no such user, the store document under the slug is used as it is. */
  lemma StoreDocFallback(slug: string, rows: seq<Row>, stores: map<string, Doc>)
    requires slug != "" && slug in stores
    requires forall j :: 0 <= j < |rows| ==> !HasStr(rows[j].data, StoreName, slug)
    ensures Resolve(Some(slug), Success(rows), Success(stores)) == Success(Resolved(stores[slug], true))
  {
  }

  /** 'Store not found' is reached exactly when both lookups complete and neither finds the slug. */
  lemma NotFoundIff(storeSlug: Option<string>, users: Result<seq<Row>>, stores: Result<map<string, Doc>>)
    ensures Resolve(storeSlug, users, stores) == Success(NotFound) <==>
      Present(storeSlug) && users.Success? && stores.Success? && storeSlug.value !in stores.value
      && forall j :: 0 <= j < |users.value| ==> !HasStr(users.value[j].data, StoreName, storeSlug.value)
  {
  }

  /** The hook's state and the browser session it writes. */
  class StoreLoader {
    var storeData: Option<Doc>
    var featuredProduct: Option<Doc>
    var loading: bool
    var error: Option<string>
    var session: map<string, string>

    constructor (session: map<string, string>)
      ensures storeData == None && featuredProduct == None && loading && error == None
      ensures this.session == session
    {
      storeData := None;
      featuredProduct := None;
      loading := true;
      error := None;
      this.session := session;
    }

    /** The `catch`: the thrown message, or the generic one. */
    method Fail(message: string)
      modifies this
      ensures error == Some(ErrorText(message))
      ensures storeData == old(storeData) && featuredProduct == old(featuredProduct)
      ensures loading == old(loading) && session == old(session)
    {
      error := Some(ErrorText(message));
    }

    /**
     * `loadStoreData` for the route's slug, given what the users query, the store lookup
     * and the featured-products query answer (or the errors they throw).
     */
    method LoadStoreData(storeSlug: Option<string>, users: Result<seq<Row>>, stores: Result<map<string, Doc>>,
                         featured: Result<seq<Doc>>)
      modifies this
      ensures !loading
      ensures var r := Resolve(storeSlug, users, stores);
        r.Failure? ==>
          error == Some(ErrorText(r.error)) && storeData == old(storeData)
          && featuredProduct == old(featuredProduct) && session == old(session)
      ensures Resolve(storeSlug, users, stores) == Success(NotFound) ==>
        error == Some(StoreNotFound) && storeData == old(storeData)
        && featuredProduct == old(featuredProduct) && session == old(session)
      ensures var r := Resolve(storeSlug, users, stores);
        r.Success? && r.value.Resolved? ==>
          storeData == Some(r.value.store)
          && session == (if r.value.fromStoreDoc then old(session)[CurrentStoreName := NameText(r.value.store)]
                         else old(session))
          && (featured.Failure? ==> error == Some(ErrorText(featured.error)) && featuredProduct == old(featuredProduct))
          && (featured.Success? ==>
                error == old(error)
                && featuredProduct == (if |featured.value| > 0 then Some(featured.value[0]) else old(featuredProduct)))
    {
      var current: Option<Doc> := None;
      if !Present(storeSlug) {
        current := Some(DefaultStore());
        storeData := current;
      } else {
        if users.Failure? {
          Fail(users.error);
          loading := false;
          return;
        }
        var hit := FirstWithStoreName(users.value, storeSlug.value);
        if hit.Some? {
          current := Some(FromUser(users.value[hit.value].data, storeSlug.value));
          storeData := current;
        } else {
          if stores.Failure? {
            Fail(stores.error);
            loading := false;
            return;
          }
          if storeSlug.value in stores.value {
            var store := stores.value[storeSlug.value];
            current := Some(store);
            storeData := current;
            session := session[CurrentStoreName := NameText(store)];
          } else {
            error := Some(StoreNotFound);
            loading := false;
            return;
          }
        }
      }
      if current.Some? {
        if featured.Failure? {
          Fail(featured.error);
        } else if |featured.value| > 0 {
          featuredProduct := Some(featured.value[0]);
        }
      }
      loading := false;
    }
  }
}
