/** An in-memory key/value store over `map[string]interface{}` (the lock that guards it is not modelled). */
module Cache {
  import opened Dynamic

  class MemoryCache {
    var data: map<string, Value>

    /** `New()`: an empty cache. */
    constructor New()
      ensures data == map[]
      ensures forall k :: k !in data
    {
      data := map[];
    }

    /** `Get(key)`: the stored value and true, or nil and false when the key is absent. */
    method Get(key: string) returns (val: Value, ok: bool)
      ensures ok <==> key in data
      ensures ok ==> val == data[key]
      ensures !ok ==> val == Nil
    {
      if key in data {
        val, ok := data[key], true;
      } else {
        val, ok := Nil, false;
      }
    }

    /** `Set(key, value)`: store value under key, replacing any earlier value; other keys keep theirs. */
    method Set(key: string, value: Value)
      modifies this
      ensures data == old(data)[key := value]
      ensures key in data && data[key] == value
      ensures data.Keys == old(data.Keys) + {key}
      ensures forall k :: k != key && k in old(data) ==> k in data && data[k] == old(data)[k]
    {
      data := data[key := value];
    }
  }

  /** A cache reads back what was last stored under a key, whatever was there before. */
  method SetThenGet(c: MemoryCache, key: string, value: Value) returns (val: Value, ok: bool)
    modifies c
    ensures ok && val == value
    ensures c.data == old(c.data)[key := value]
  {
    c.Set(key, value);
    val, ok := c.Get(key);
  }

  /** A fresh cache reports nil and false for every key. */
  method GetAfterNew(key: string) returns (val: Value, ok: bool)
    ensures !ok && val == Nil
  {
    var c := new MemoryCache.New();
    val, ok := c.Get(key);
  }
}
