/** Poll tokens of the wake-up source, the listeners and the connections, and routing by handle. */
module Tokens {
  import opened Gfds

  const USIZE_MAX: nat := 0xFFFF_FFFF_FFFF_FFFF
  const WAKE_TOKEN: nat := USIZE_MAX
  const LISTENER_LIMIT: nat := 1024
  const LISTENER_TOKEN_START: nat := USIZE_MAX - LISTENER_LIMIT

  function ListenerToken(index: nat): nat {
    LISTENER_TOKEN_START + index
  }

  datatype Target = WakeTarget | ListenerTarget(index: nat) | ConnectionTarget(key: nat)

  function IsListenerToken(token: nat): (r: int)
    ensures r >= 0 <==> LISTENER_TOKEN_START <= token < USIZE_MAX
    ensures r >= 0 ==> ListenerToken(r) == token
  {
    if token >= LISTENER_TOKEN_START && token < USIZE_MAX then token - LISTENER_TOKEN_START else -1
  }

  /** The order in which the event loop tests a token. */
  function Dispatch(token: nat): Target {
    if token == WAKE_TOKEN then WakeTarget
    else if IsListenerToken(token) >= 0 then ListenerTarget(IsListenerToken(token))
    else ConnectionTarget(token)
  }

  /**
   Every listener and every slot gets a token that dispatches back to it and to
   nothing else: for a listener exactly when its index is below 1024.
   */
  lemma DispatchIsUnambiguous(index: nat, key: nat)
    requires key < SLOT_LIMIT
    ensures Dispatch(WAKE_TOKEN) == WakeTarget
    ensures Dispatch(ListenerToken(index)) == ListenerTarget(index) <==> index < 1024
    ensures Dispatch(key) == ConnectionTarget(key)
    ensures index < LISTENER_LIMIT ==> ListenerToken(index) != key && ListenerToken(index) != WAKE_TOKEN
  {
  }

  /** Which of `loops` registered loops a command for `gfd` is queued at, if any. */
  function Route(loops: nat, gfd: Gfd): (r: int)
    ensures r < loops
  {
    if gfd.EventLoopIndex() < loops then gfd.EventLoopIndex() else -1
  }

  /**
   A loop is numbered by its position, cut to eight bits. A command for a live
   handle reaches the loop that made it exactly when that position fits.
   */
  lemma RouteReachesOwner(loops: nat, position: nat, fd: int, token: nat, serial: nat)
    requires position < loops
    ensures Route(loops, Make(fd, position % LOOP_LIMIT, token, serial)) == position
            <==> position < 256
  {
    AccessorsInvertMake(fd, position % LOOP_LIMIT, token, serial);
  }
}
