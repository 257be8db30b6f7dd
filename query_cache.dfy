/** The query agent's result cache: a dict from cache key to the rendered
    answer, at most fifty entries, the oldest entry dropped first when a
    save finds it full. */
module QueryCache {
  import opened Text
  import Dicts

  /** `cache_max_size` */
  const MaxSize: nat := 50

  /** The cache after `_save_to_cache(key, result)`: when it already holds
      `MaxSize` entries the first-inserted one goes, whether or not `key`
      is among them, and then `key` is set to `result`. */
  function Saved(d: Dicts.Dict<string>, key: string, result: string): (r: Dicts.Dict<string>)
    requires Dicts.WellFormed(d)
    ensures Dicts.WellFormed(r)
    ensures key in r.entries && r.entries[key] == result
  {
    var kept := if |d.order| >= MaxSize then Dicts.Remove(d, d.order[0]) else d;
    Dicts.Put(kept, key, result)
  }

  /** A save never takes the cache beyond its bound. */
  lemma SavedBound(d: Dicts.Dict<string>, key: string, result: string)
    requires Dicts.WellFormed(d) && |d.order| <= MaxSize
    ensures |Saved(d, key, result).order| <= MaxSize
  {
    if |d.order| >= MaxSize {
      Dicts.WithoutPresent(d.order, d.order[0]);
    }
  }

  /** Below the bound a save is a plain assignment. */
  lemma SavedRoom(d: Dicts.Dict<string>, key: string, result: string)
    requires Dicts.WellFormed(d) && |d.order| < MaxSize
    ensures Saved(d, key, result).entries == d.entries[key := result]
  {
  }

  /** At the bound the oldest entry is evicted unless it is the key being
      saved, and every other entry keeps its value. */
  lemma SavedEvictsOldest(d: Dicts.Dict<string>, key: string, result: string)
    requires Dicts.WellFormed(d) && |d.order| == MaxSize
    ensures var r := Saved(d, key, result);
      && (d.order[0] != key ==> d.order[0] !in r.entries)
      && (forall k :: k in d.entries && k != d.order[0] && k != key ==> k in r.entries && r.entries[k] == d.entries[k])
      && (forall k :: k in r.entries ==> k == key || k in d.entries)
  {
  }

  /** A key saved when the cache is full and the key is new goes to the
      end of the order, after every survivor; so eviction is first in,
      first out. */
  lemma SavedQueues(d: Dicts.Dict<string>, key: string, result: string)
    requires Dicts.WellFormed(d) && |d.order| == MaxSize && key !in d.entries
    ensures Saved(d, key, result).order == d.order[1..] + [key]
  {
    assert d.order[0] !in d.order[1..];
    assert Dicts.Without(d.order, d.order[0]) == d.order[1..];
  }

  class Cache {
    /** `cache_consultas` */
    var consultas: Dicts.Dict<string>

    ghost predicate Valid()
      reads this
    {
      Dicts.WellFormed(consultas) && |consultas.order| <= MaxSize
    }

    /** `self.cache_consultas = {}` */
    constructor ()
      ensures Valid() && consultas == Dicts.Empty()
    {
      consultas := Dicts.Empty();
    }

    /** `_get_from_cache`: the stored answer, or nothing on a miss. */
    method Get(key: string) returns (r: Option<string>)
      ensures key in consultas.entries ==> r == Some(consultas.entries[key])
      ensures key !in consultas.entries ==> r == None
    {
      if key in consultas.entries {
        r := Some(consultas.entries[key]);
      } else {
        r := None;
      }
    }

    /** `_save_to_cache` */
    method Save(key: string, result: string)
      requires Valid()
      modifies this
      ensures Valid()
      ensures consultas == Saved(old(consultas), key, result)
      ensures key in consultas.entries && consultas.entries[key] == result
    {
      SavedBound(consultas, key, result);
      if |consultas.order| >= MaxSize {
        var oldest := consultas.order[0];
        consultas := Dicts.Remove(consultas, oldest);
      }
      consultas := Dicts.Put(consultas, key, result);
    }
  }
}
