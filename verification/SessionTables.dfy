/** The session map of internal/session/manager.go as an immutable value. */
module SessionTables {

  datatype Session<T> = Session(task: T, lastActivity: int)

  type Sessions<T> = map<string, Session<T>>

  function Insert<T>(m: Sessions<T>, key: string, t: T, now: int): Sessions<T> {
    m[key := Session(t, now)]
  }

  /** Refreshes the deadline of a live session; nothing happens to a missing one. */
  function Touch<T>(m: Sessions<T>, key: string, now: int): Sessions<T> {
    if key in m then m[key := m[key].(lastActivity := now)] else m
  }

  function Remove<T>(m: Sessions<T>, key: string): Sessions<T> {
    m - {key}
  }

  predicate Expired<T>(s: Session<T>, now: int, maxAge: int) {
    now - s.lastActivity > maxAge
  }

  /** The sessions one expiry pass removes and returns. */
  function Reaped<T>(m: Sessions<T>, now: int, maxAge: int): Sessions<T> {
    map key | key in m && Expired(m[key], now, maxAge) :: m[key]
  }

  /** The sessions one expiry pass keeps. */
  function Kept<T>(m: Sessions<T>, now: int, maxAge: int): Sessions<T> {
    map key | key in m && !Expired(m[key], now, maxAge) :: m[key]
  }
}
