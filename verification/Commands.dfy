/** Commands for an event loop, and which of its two queues they go to. */
module Commands {
  import opened Chunks
  import opened Gfds
  import opened Sockets

  datatype Command =
    | Nop
    | AsyncWrite(gfd: Gfd, data: Bytes)
    | Register(socket: Socket)
    | Close(key: nat)
    | Wake
    | Read(key: nat)
    | Write(key: nat)
    | Shutdown
  {
    function Priority(): Priority {
      match this
      case Nop => Low
      case AsyncWrite(_, _) => High
      case Wake => Low
      case Register(_) => Low
      case Close(_) => Low
      case Read(_) => High
      case Write(_) => High
      case Shutdown => High
    }
  }

  datatype Priority = High | Low

  const MAX_POLL_EVENT_CAP: nat := 1024

  const MAX_ASYNC_TASK_ONE_TIME: nat := 256

  /** Low commands overflow to the common queue when the urgent one is long. */
  predicate GoesToCommon(priority: Priority, urgentLen: nat) {
    priority == Low && urgentLen >= MAX_POLL_EVENT_CAP
  }

  /**
   Nothing that carries bytes, moves them or ends the loop overflows to the common queue;
   the others do exactly when 1024 commands wait in the urgent one.
   */
  lemma OverflowIff(command: Command, urgentLen: nat)
    ensures GoesToCommon(command.Priority(), urgentLen) <==>
            urgentLen >= 1024 && (command.Nop? || command.Register? || command.Close? || command.Wake?)
  {
  }
}
