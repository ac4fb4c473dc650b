/**
 * Documents of the `users` collection as JavaScript objects: a map from field to value,
 * where an absent key is `undefined`. Object spread is map union (the right operand
 * wins) and `delete` is map subtraction.
 */
module Docs {
  import opened Wrappers

  /**
   * The field names the storefront reads or writes on a user, and `Other` for any other
   * name a caller supplies (never one of the listed names).
   */
  datatype Field =
    | Id | UserId | Email | FirstName | LastName | Password | Category | Username
    | Permissions | SchemaVersion | IsActive | IsOnline | CreatedAt | UpdatedAt | LastActiveAt | LastLoginAt
    | Address | City | State | Country | CountryCode | ZipCode | Phone | PrimaryPhone | SecondaryPhone
    | CardNumber | Cvv | ExpiryDate | Message | SellerMessage
    | PreviousId | PreviousFranchiseId | StoreName | StoreSlug | StoreStatus | RequiresUsername
    | Other(name: string)

  /** The property name as it appears in the JavaScript object. */
  function FieldName(f: Field): string {
    match f
    case Id => "id"
    case UserId => "userId"
    case Email => "email"
    case FirstName => "firstName"
    case LastName => "lastName"
    case Password => "password"
    case Category => "category"
    case Username => "username"
    case Permissions => "permissions"
    case SchemaVersion => "schemaVersion"
    case IsActive => "isActive"
    case IsOnline => "isOnline"
    case CreatedAt => "createdAt"
    case UpdatedAt => "updatedAt"
    case LastActiveAt => "lastActiveAt"
    case LastLoginAt => "lastLoginAt"
    case Address => "address"
    case City => "city"
    case State => "state"
    case Country => "country"
    case CountryCode => "countryCode"
    case ZipCode => "zipCode"
    case Phone => "phone"
    case PrimaryPhone => "primaryPhone"
    case SecondaryPhone => "secondaryPhone"
    case CardNumber => "cardNumber"
    case Cvv => "cvv"
    case ExpiryDate => "expiryDate"
    case Message => "message"
    case SellerMessage => "sellerMessage"
    case PreviousId => "previousId"
    case PreviousFranchiseId => "previousFranchiseId"
    case StoreName => "storeName"
    case StoreSlug => "storeSlug"
    case StoreStatus => "storeStatus"
    case RequiresUsername => "requiresUsername"
    case Other(name) => name
  }

  datatype Value = Str(s: string) | Bool(b: bool) | Num(n: int) | Time(t: nat) | Null

  type Doc = map<Field, Value>

  /** JavaScript truthiness of a present value. */
  predicate Truthy(v: Value) {
    match v
    case Str(s) => s != ""
    case Bool(b) => b
    case Num(n) => n != 0
    case Time(_) => true
    case Null => false
  }

  /** `!!d[k]`: an absent field is `undefined`, which is falsy. */
  predicate FieldTruthy(d: Doc, k: Field) {
    k in d && Truthy(d[k])
  }

  /** `d[k] || fallback` */
  function Or(d: Doc, k: Field, fallback: Value): (v: Value)
    ensures Truthy(v) <==> FieldTruthy(d, k) || Truthy(fallback)
    ensures v == fallback || (FieldTruthy(d, k) && v == d[k])
    ensures FieldTruthy(d, k) ==> v == d[k]
  {
    if FieldTruthy(d, k) then d[k] else fallback
  }

  /** Whether `d[k] ?? x` keeps `d[k]`: the field is present and not null. */
  predicate Defined(d: Doc, k: Field) {
    k in d && d[k] != Null
  }

  /** `a[k] ?? b[k] ?? fallback` */
  function Coalesce(a: Doc, b: Doc, k: Field, fallback: Value): (v: Value)
    ensures v == Null ==> fallback == Null
    ensures v == fallback || (Defined(a, k) && v == a[k]) || (Defined(b, k) && v == b[k])
    ensures Defined(a, k) ==> v == a[k]
    ensures Defined(b, k) && v != b[k] ==> Defined(a, k)
  {
    if Defined(a, k) then a[k] else if Defined(b, k) then b[k] else fallback
  }

  /** The field holds exactly this string. */
  predicate HasStr(d: Doc, k: Field, s: string) {
    k in d && d[k] == Str(s)
  }

  /** A nullable string (a session value, an optional parameter) tested for truthiness. */
  predicate Present(v: Option<string>) {
    v.Some? && v.value != ""
  }

  /** The string a field holds, if it holds one. */
  function StrField(d: Doc, k: Field): Option<string> {
    if k in d && d[k].Str? then Some(d[k].s) else None
  }

  /** `{ id: snapshot.id, ...snapshot.data() }`: a fetched record with its document id spread in first. */
  function WithId(docId: string, d: Doc): (r: Doc)
    ensures Id in r && r[Id] == (if Id in d then d[Id] else Str(docId))
    ensures forall k :: k in d ==> k in r && r[k] == d[k]
    ensures r.Keys == d.Keys + {Id}
  {
    map[Id := Str(docId)] + d
  }
}
