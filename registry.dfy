/** The provider registry: the module-level `dict` from provider name to provider class,
    held here by one `Registry` object whose methods are the module's functions. */
module ProviderRegistry {
  import opened Wrappers
  import opened OrderedMaps
  import opened Exceptions
  import opened ProviderBase

  /** A registered provider class, known by its class name. */
  datatype ProviderClass = ProviderClass(className: string)

  class Registry {
    /** Name to class, in registration order. */
    var entries: Dict<string, ProviderClass>

    /** A `dict`: no name twice. */
    ghost predicate Valid()
      reads this
    {
      UniqueKeys(entries)
    }

    /** The empty registry the module starts with. */
    constructor()
      ensures entries == [] && Valid()
    {
      entries := [];
    }

    /** `get_provider_class(name)`. */
    function GetProviderClass(name: string): (r: Option<ProviderClass>)
      reads this
      ensures r.None? <==> name !in Keys(entries)
      ensures r.Some? ==> (name, r.value) in entries
    {
      GetSpec(entries, name);
      Get(entries, name)
    }

    /** `register_provider(name)(cls)`: stores `cls` under `name` (a new name goes last,
        a known one is overwritten in place with a warning) and returns `cls` unchanged. */
    method Register(name: string, cls: ProviderClass) returns (r: ProviderClass, warned: bool)
      requires Valid()
      modifies this
      ensures Valid()
      ensures r == cls
      ensures warned <==> name in Keys(old(entries))
      ensures entries == Put(old(entries), name, cls)
      ensures GetProviderClass(name) == Some(cls)
      ensures forall n :: n != name ==> GetProviderClass(n) == old(GetProviderClass(n))
      ensures warned ==> Keys(entries) == Keys(old(entries))
      ensures !warned ==> Keys(entries) == Keys(old(entries)) + [name]
    {
      warned := name in Keys(entries);
      PutUnique(entries, name, cls);
      PutKeys(entries, name, cls);
      forall n {
        PutGet(entries, name, cls, n);
      }
      entries := Put(entries, name, cls);
      r := cls;
    }

    /** `get_all_provider_classes()`: a copy of the mapping; being a value, changing
        it cannot change the registry. */
    method GetAllProviderClasses() returns (copy: Dict<string, ProviderClass>)
      ensures copy == entries
      ensures Keys(copy) == Keys(entries)
    {
      copy := entries;
    }

    /** `unregister_provider(name)`: true iff `name` was registered; afterwards it is gone
        and every other name reads as before. */
    method Unregister(name: string) returns (removed: bool)
      requires Valid()
      modifies this
      ensures Valid()
      ensures removed <==> name in Keys(old(entries))
      ensures entries == Remove(old(entries), name)
      ensures GetProviderClass(name) == None
      ensures forall n :: n != name ==> GetProviderClass(n) == old(GetProviderClass(n))
    {
      removed := name in Keys(entries);
      forall n {
        RemoveGet(entries, name, n);
      }
      RemoveKeepsUnique(entries, name);
      if removed {
        entries := Remove(entries, name);
      } else {
        RemoveAbsent(entries, name);
      }
    }

    /** `clear_registry()`. */
    method Clear()
      modifies this
      ensures entries == [] && Valid()
      ensures ListedNames() == []
    {
      entries := [];
    }

    /** `list_providers()`: the names in registration order. */
    function ListedNames(): (names: seq<string>)
      reads this
      ensures |names| == |entries|
      ensures forall i :: 0 <= i < |entries| ==> names[i] == entries[i].0
    {
      Keys(entries)
    }

    /** `list_providers()`. */
    method ListProviders() returns (names: seq<string>)
      ensures names == ListedNames()
    {
      names := Keys(entries);
    }

    /** `create_provider(name, enabled=...)`: an instance of the registered class, or
        `ValueError` when `name` is not registered. */
    method CreateProvider(name: string, enabled: bool) returns (r: Result<Provider, Error>)
      ensures name !in Keys(entries) ==>
        r == Err(Error(ValueError, "Provider '" + name + "' is not registered"))
      ensures name in Keys(entries) ==>
        r == Ok(NewProvider(GetProviderClass(name).value.className, enabled))
    {
      var cls := GetProviderClass(name);
      if cls.None? {
        return Err(Error(ValueError, "Provider '" + name + "' is not registered"));
      }
      return Ok(NewProvider(cls.value.className, enabled));
    }
  }

  /** Removing from a map with unique keys keeps them unique. */
  lemma {:induction false} RemoveKeepsUnique(d: Dict<string, ProviderClass>, k: string)
    requires UniqueKeys(d)
    ensures UniqueKeys(Remove(d, k))
    ensures forall e :: e in Remove(d, k) ==> e in d
  {
    if d != [] {
      RemoveKeepsUnique(d[1..], k);
      var rest := Remove(d[1..], k);
      if d[0].0 != k {
        forall e | e in rest ensures e.0 != d[0].0 {
          var j :| 0 <= j < |d[1..]| && d[1..][j] == e;
          assert d[j + 1] == e;
        }
      }
    }
  }

  /** Removing an absent key changes nothing. */
  lemma {:induction false} RemoveAbsent(d: Dict<string, ProviderClass>, k: string)
    requires k !in Keys(d)
    ensures Remove(d, k) == d
  {
    if d != [] {
      assert Keys(d) == [d[0].0] + Keys(d[1..]);
      RemoveAbsent(d[1..], k);
    }
  }
}
