/** The browser state the client pages share. */
module Browser {
  import opened Wrappers

  /** `window.localStorage`: one string-to-string store read and written by every page. */
  class LocalStorage {
    var items: map<string, string>

    constructor (initial: map<string, string>)
      ensures items == initial
    {
      items := initial;
    }

    /** `getItem(key)`: the stored text, or `null` (here `None`) when the key is absent. */
    function GetItem(key: string): Option<string>
      reads this
    {
      if key in items then Some(items[key]) else None
    }

    /** `setItem(key, value)`: every other key keeps its value. */
    method SetItem(key: string, value: string)
      modifies this
      ensures items == old(items)[key := value]
    {
      items := items[key := value];
    }

    /** `removeItem(key)`: every other key keeps its value. */
    method RemoveItem(key: string)
      modifies this
      ensures items == old(items) - {key}
    {
      items := items - {key};
    }
  }
}
