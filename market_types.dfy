/** Shared value types of the market finder: the optional value, the closed
    business-type enumeration, carriers, the state table rows and the
    line-of-business catalog. */
module MarketTypes {

  datatype Option<T> = None | Some(value: T)

  /** `BusinessType` is the closed two-value enumeration `'Personal' | 'Commercial'`. */
  datatype BusinessType = Personal | Commercial

  /** The string the UI and the query string use for a business type. */
  function BusinessTypeName(t: BusinessType): (s: string)
    ensures s != ""
    ensures s == "Personal" || s == "Commercial"
  {
    match t
    case Personal => "Personal"
    case Commercial => "Commercial"
  }

  /** Reads a string back as a business type; anything but the two exact names is rejected. */
  function ParseBusinessType(s: string): (r: Option<BusinessType>)
    ensures r.Some? ==> BusinessTypeName(r.value) == s
    ensures (s == "Personal" || s == "Commercial") ==> r.Some?
  {
    if s == "Personal" then Some(Personal)
    else if s == "Commercial" then Some(Commercial)
    else None
  }

  /** A row of the state table: a code, a display name and the licensed flag. */
  datatype StateInfo = StateInfo(code: string, name: string, licensed: bool)

  /** A carrier as the dataset lists it; `logo` is the optional image path. */
  datatype Carrier = Carrier(
    id: string,
    name: string,
    states: seq<string>,
    lines: seq<string>,
    tags: seq<string>,
    logo: Option<string>)

  /** The line-of-business catalog: each business type to its ordered product names. */
  type LobCatalog = map<BusinessType, seq<string>>
}
