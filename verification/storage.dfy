/** The backend's key-value storage (`logical.Storage`) as a finite map of
    typed entries. `fault` stands for an unavailable backend: while it is
    set, every call fails with that message and changes nothing. */
module Storage {
  import opened Results
  import opened Records
  import StringOrder

  datatype Store = Store(entries: map<string, Entry>, fault: Option<string>)

  /** `s.Get(key)`: the entry at `key`, or `None` when there is none. */
  function Get(s: Store, key: string): (r: Result<Option<Entry>>)
    ensures s.fault.Some? ==> r == Err(StorageError(s.fault.value))
    ensures s.fault.None? ==> r.Ok? && (r.value.Some? <==> key in s.entries)
    ensures r.Ok? && r.value.Some? ==> key in s.entries && r.value.value == s.entries[key]
  {
    if s.fault.Some? then Err(StorageError(s.fault.value))
    else if key in s.entries then Ok(Some(s.entries[key]))
    else Ok(None)
  }

  /** `s.Put(entry)`: stores `e` at `key`, replacing what was there. */
  function Put(s: Store, key: string, e: Entry): (r: Result<Store>)
    ensures s.fault.Some? <==> r.Err?
    ensures r.Ok? ==> r.value.entries.Keys == s.entries.Keys + {key}
    ensures r.Ok? ==> r.value.entries[key] == e && r.value.fault == s.fault
    ensures r.Ok? ==> forall k :: k in s.entries && k != key ==> r.value.entries[k] == s.entries[k]
  {
    if s.fault.Some? then Err(StorageError(s.fault.value))
    else Ok(s.(entries := s.entries[key := e]))
  }

  /** `s.Delete(key)`: removes `key`; deleting an absent key is not an error. */
  function Delete(s: Store, key: string): (r: Result<Store>)
    ensures s.fault.Some? <==> r.Err?
    ensures r.Ok? ==> r.value.entries.Keys == s.entries.Keys - {key}
    ensures r.Ok? ==> r.value.fault == s.fault
    ensures r.Ok? ==> forall k :: k in r.value.entries ==> r.value.entries[k] == s.entries[k]
  {
    if s.fault.Some? then Err(StorageError(s.fault.value))
    else Ok(s.(entries := s.entries - {key}))
  }

  /** Position of the first '/' in `s`, or `|s|` when there is none. */
  function SlashIndex(s: string): (i: nat)
    ensures i <= |s|
    ensures i < |s| ==> s[i] == '/'
    ensures forall j :: 0 <= j < i ==> s[j] != '/'
  {
    if |s| == 0 || s[0] == '/' then 0 else 1 + SlashIndex(s[1..])
  }

  /** The immediate child named by the part of a key after the listed prefix:
      the whole rest for a leaf, the first segment with its '/' for a
      sub-folder. */
  function Child(rest: string): (c: string)
    ensures c <= rest
    ensures '/' !in rest ==> c == rest
    ensures '/' in rest ==> |c| > 0 && c[|c| - 1] == '/' && '/' !in c[..|c| - 1]
  {
    var i := SlashIndex(rest);
    if i == |rest| then rest else rest[..i + 1]
  }

  /** The names `List` returns for `prefix`: one per key under it. */
  function Children(entries: map<string, Entry>, prefix: string): set<string> {
    set k | k in entries && prefix <= k :: Child(k[|prefix|..])
  }

  /** `s.List(prefix)`: the immediate children of `prefix`, each once. The
      storage interface fixes no order; the model takes ascending order,
      the order Vault's storage backends return. */
  function List(s: Store, prefix: string): (r: Result<seq<string>>)
    ensures s.fault.Some? <==> r.Err?
    ensures r.Err? ==> r.error == StorageError(s.fault.value)
    ensures r.Ok? ==> StringOrder.StrictlySorted(r.value)
    ensures r.Ok? ==> forall n :: n in r.value <==> n in Children(s.entries, prefix)
  {
    if s.fault.Some? then Err(StorageError(s.fault.value))
    else Ok(StringOrder.Sorted(Children(s.entries, prefix)))
  }

  /** Every listed name without a '/' is a key under the prefix. */
  lemma ListedLeafIsKey(entries: map<string, Entry>, prefix: string, name: string)
    requires name in Children(entries, prefix)
    requires '/' !in name
    ensures prefix + name in entries
  {
    var k :| k in entries && prefix <= k && Child(k[|prefix|..]) == name;
    var rest := k[|prefix|..];
    assert k == prefix + rest;
  }
}
