/** Token pairs and the decision `tokenSource.valid` takes while it holds its lock
    (connect/client.go, connect/connect.go). Times and lifetimes are in nanoseconds. */
module Tokens {
  import opened Options
  import opened Units

  const REFRESH_LEEWAY := 60 * SECOND

  datatype Token = Token(access: string, refresh: string, createdAt: int, accessExpiresIn: int, refreshExpiresIn: int) {
    function AccessExpiry(): int {
      createdAt + accessExpiresIn * SECOND
    }

    function RefreshExpiry(): int {
      createdAt + refreshExpiresIn * SECOND
    }

    predicate AccessValid(now: int, leeway: int) {
      access != "" && now + leeway < AccessExpiry()
    }
  }

  datatype TokenError = NoToken | RefreshExpired | LoadError | RefreshError | SaveError

  /** What `TokenStore.Load` gives back; a store may hold nothing. */
  datatype Load = LoadOk(tok: Option<Token>) | LoadFail

  /** How the first critical section ends, for a call of type C. */
  datatype Decision<C> = Refuse(err: TokenError) | Use(tok: Token) | Wait(call: C) | Lead(refreshToken: string)

  /** The token held after the first critical section, and how that section ends.
      `now1` and `now2` are its two readings of the clock. */
  function Decide<C>(tok: Option<Token>, inflight: Option<C>, load: Load, now1: int, now2: int)
    : (Option<Token>, Decision<C>)
  {
    var held := if tok.None? && load.LoadOk? then load.tok else tok;
    var decision :=
      if tok.None? && load.LoadFail? then Refuse(LoadError)
      else if held.None? then Refuse(NoToken)
      else if held.value.AccessValid(now1, REFRESH_LEEWAY) then Use(held.value)
      else if held.value.RefreshExpiry() <= now2 then Refuse(RefreshExpired)
      else if inflight.Some? then Wait(inflight.value)
      else Lead(held.value.refresh);
    (held, decision)
  }
}
