/** Redis as the gateway uses it: string keys with a time to live. */
module Redis {
  import opened Wrappers
  import opened Clock

  datatype Slot = Slot(value: string, expiresAt: Option<int>)

  type Store = map<string, Slot>

  predicate Live(slot: Slot, now: int) {
    slot.expiresAt.None? || now < slot.expiresAt.value
  }

  function Get(s: Store, key: string, now: int): Option<string> {
    if key in s && Live(s[key], now) then Some(s[key].value) else None
  }

  /** SET with EX; a time to live below one second is an error and stores nothing. */
  function Set(s: Store, key: string, value: string, ttl: int, now: int): Store {
    if ttl <= 0 then s[key := Slot(value, None)]
    else if WholeSeconds(ttl) == 0 then s
    else s[key := Slot(value, Some(now + WholeSeconds(ttl) * SECOND))]
  }

  function Del(s: Store, key: string): Store {
    s - {key}
  }
}
