/**
 * The stored list of user records. The JSON file behind `load_users` and
 * `save_users` is a field holding the list; a ghost counter records how many
 * times it was written.
 */
module UserData {
  import opened Wrappers
  import opened Text
  import opened Users

  /** One stored user; `cards` is `None` when the record has no "cards" key. */
  datatype UserRecord = UserRecord(username: string, password: string, wallet: real, cards: Option<seq<Card>>)

  class UserFile {
    var records: seq<UserRecord>
    ghost var saves: nat

    constructor (records: seq<UserRecord>)
      ensures this.records == records && saves == 0
    {
      this.records := records;
      saves := 0;
    }

    /** `save_users(data)`: the file now holds `data`. */
    method Save(data: seq<UserRecord>)
      modifies this
      ensures records == data && saves == old(saves) + 1
    {
      records := data;
      saves := saves + 1;
    }
  }

  /** Whether the stored name `stored` is `name`: exactly, or after lowering both. */
  predicate SameName(stored: string, name: string, ignoreCase: bool) {
    if ignoreCase then Lower(stored) == Lower(name) else stored == name
  }

  /** The position of the first record for `name`, or `|data|` when there is none. */
  function IndexOfUser(data: seq<UserRecord>, name: string, ignoreCase: bool): (k: nat)
    ensures k <= |data|
    ensures k < |data| ==> SameName(data[k].username, name, ignoreCase)
    ensures forall j :: 0 <= j < k ==> !SameName(data[j].username, name, ignoreCase)
  {
    if data == [] then 0
    else if SameName(data[0].username, name, ignoreCase) then 0
    else 1 + IndexOfUser(data[1..], name, ignoreCase)
  }

  predicate Registered(data: seq<UserRecord>, name: string) {
    IndexOfUser(data, name, false) < |data|
  }

  /** The scan for the first record whose username equals `name` exactly. */
  method FindUser(data: seq<UserRecord>, name: string) returns (k: nat)
    ensures k == IndexOfUser(data, name, false)
  {
    k := 0;
    while k < |data|
      invariant k <= |data|
      invariant forall j :: 0 <= j < k ==> data[j].username != name
    {
      if data[k].username == name {
        return;
      }
      k := k + 1;
    }
  }
}
