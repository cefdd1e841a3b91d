/**
 * The browser's localStorage, as the front-end stores use it: a table of
 * string items that getItem reads and setItem/removeItem change in place.
 */
module WebStorage {
  import opened Common

  class LocalStorage {
    var items: map<string, string>

    constructor ()
      ensures items == map[]
    {
      items := map[];
    }

    /** getItem: the stored text, or None for the `null` of a missing key. */
    function GetItem(key: string): (r: Option<string>)
      reads this
      ensures r.Some? <==> key in items
      ensures r.Some? ==> r.value == items[key]
    {
      if key in items then Some(items[key]) else None
    }

    method SetItem(key: string, value: string)
      modifies this
      ensures items == old(items)[key := value]
    {
      items := items[key := value];
    }

    method RemoveItem(key: string)
      modifies this
      ensures items == old(items) - {key}
    {
      items := items - {key};
    }
  }

  /** JavaScript's String(b) for a boolean. */
  function BoolString(b: bool): (r: string)
    ensures (r == "true") == b
  {
    if b then "true" else "false"
  }
}
