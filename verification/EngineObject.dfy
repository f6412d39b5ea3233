/**
 The engine as the object whose handlers update its fields and re-enter one another
 (src/engine/engineprivate.cpp); each does what the corresponding function of EngineLifecycle says.
 */
module EngineObject {
  import opened Options
  import opened ReplyCodes
  import L = EngineLifecycle

  class FileZillaEngine {
    var currentCommand: Option<L.Command>
    var controlSocket: bool
    var retryTimer: bool
    var retryCount: nat
    var queue: seq<L.Queued>
    var notifications: seq<L.Notification>
    ghost var accepted: seq<L.Command>
    ghost var unhandled: bool
    ghost var created: nat
    const reconnectCount: int

    constructor (reconnectCount: int)
      ensures Value() == L.IDLE && this.reconnectCount == reconnectCount
    {
      currentCommand, controlSocket, retryTimer, retryCount := None, false, false, 0;
      queue, notifications := [], [];
      accepted, unhandled, created := [], false, 0;
      this.reconnectCount := reconnectCount;
    }

    ghost function Value(): L.Engine
      reads this
    {
      L.Engine(
        currentCommand, unhandled, controlSocket, retryTimer, retryCount, created, queue, accepted, notifications)
    }

    method CheckCommandPreconditions(c: L.Command, checkBusy: bool) returns (res: Code)
      ensures res == L.Precondition(Value(), c, checkBusy)
    {
      if checkBusy && currentCommand.Some? {
        return BUSY;
      } else if !c.Connect? && !c.Disconnect? && !controlSocket {
        return NOTCONNECTED;
      } else if c.Connect? && controlSocket {
        return ALREADYCONNECTED;
      }
      return OK;
    }

    method Execute(c: L.Command, valid: bool) returns (res: Code)
      modifies this
      ensures (Value(), res) == L.DoExecute(old(Value()), c, valid)
    {
      if !valid {
        return SYNTAXERROR;
      }
      res := CheckCommandPreconditions(c, true);
      if res != OK {
        return;
      }
      currentCommand, queue := Some(c), queue + [L.CommandQueued];
      accepted, unhandled, created := accepted + [c], true, 0;
      return WOULDBLOCK;
    }

    method Cancel() returns (res: Code)
      modifies this
      ensures (Value(), res) == L.SendCancel(old(Value()))
    {
      if currentCommand.None? {
        return OK;
      }
      queue := queue + [L.CancelQueued];
      return WOULDBLOCK;
    }

    /** The event loop hands over the oldest event. */
    method Dispatch(answer: Code, delay: bool, levels: nat, reports: seq<Code>)
      modifies this
      ensures Value() == L.DispatchFront(old(Value()), answer, delay, levels, reports, reconnectCount)
    {
      hide L.OnCommandEvent, L.DoCancel;
      if queue != [] {
        var event := queue[0];
        queue := queue[1..];
        match event
        case CommandQueued => OnCommandEvent(answer, delay, levels, reports);
        case CancelQueued => DoCancel(levels, reports);
      }
    }

    method ResetOperation(code: Code) returns (res: Code)
      modifies this
      ensures (Value(), res) == L.ResetOperation(old(Value()), code, reconnectCount)
    {
      if currentCommand.Some? {
        var c := currentCommand.value;
        if c.Connect? {
          if retryTimer {
            return WOULDBLOCK;
          }
          if code & !L.RETRYABLE == 0 && code & (ERROR | DISCONNECTED) != 0 {
            if !Has(code, CRITICALERROR) {
              retryCount := retryCount + 1;
              if retryCount < reconnectCount && c.retry {
                retryTimer := true;
                return WOULDBLOCK;
              }
            }
          }
        }
        notifications := notifications + [L.Notification(code, c)];
        currentCommand := None;
      }
      return code;
    }

    /** The socket reports a sequence of codes while it is at work. */
    method SocketWorks(codes: seq<Code>)
      modifies this
      ensures Value() == L.Reports(old(Value()), codes, reconnectCount)
    {
      var i := 0;
      assert codes[0..] == codes;
      while i < |codes|
        invariant i <= |codes|
        invariant L.Reports(Value(), codes[i..], reconnectCount) == L.Reports(old(Value()), codes, reconnectCount)
      {
        assert codes[i..][1..] == codes[i + 1..];
        var _ := ResetOperation(codes[i]);
        i := i + 1;
      }
      assert codes[i..] == [];
    }

    method DestroySocket(levels: nat)
      modifies this
      ensures Value() == L.DestroySocket(old(Value()), levels, reconnectCount)
    {
      if controlSocket {
        controlSocket := false;
        SocketWorks(L.Closings(levels));
      }
    }

    method ContinueConnect(delay: bool) returns (res: Code)
      modifies this
      ensures (Value(), res) == L.ContinueConnect(old(Value()), delay, reconnectCount)
    {
      hide L.ResetOperation;
      if currentCommand.None? || !currentCommand.value.Connect? {
        res := ResetOperation(INTERNALERROR);
        return;
      }
      if delay {
        retryTimer := true;
        return WOULDBLOCK;
      }
      if !currentCommand.value.supported {
        return SYNTAXERROR | DISCONNECTED;
      }
      controlSocket, created := true, created + 1;
      return CONTINUE;
    }

    method Finish(res: Code, reports: seq<Code>)
      modifies this
      ensures Value() == L.Finish(old(Value()), res, reports, reconnectCount)
    {
      hide L.ResetOperation, L.Reports;
      if res == CONTINUE {
        if controlSocket {
          SocketWorks(reports);
        } else {
          var _ := ResetOperation(INTERNALERROR);
        }
      } else if res != WOULDBLOCK {
        var _ := ResetOperation(res);
      }
    }

    method OnCommandEvent(answer: Code, delay: bool, levels: nat, reports: seq<Code>)
      modifies this
      ensures Value() == L.OnCommandEvent(old(Value()), answer, delay, levels, reports, reconnectCount)
    {
      hide L.ResetOperation, L.Reports, L.Finish, L.ContinueConnect, L.DestroySocket;
      if currentCommand.Some? {
        unhandled := false;
        var c := currentCommand.value;
        var res := CheckCommandPreconditions(c, false);
        if res == OK {
          match c
          case Connect(_, _) => res := Connect(delay);
          case Disconnect => res := Disconnect(levels);
          case Other(_) => res := answer;
        }
        if c.Disconnect? && res & DISCONNECTED != 0 {
          res := OK;
        }
        Finish(res, reports);
      }
    }

    method Connect(delay: bool) returns (res: Code)
      modifies this
      ensures
        if old(controlSocket) then Value() == old(Value()) && res == ALREADYCONNECTED
        else (Value(), res) == L.ContinueConnect(old(Value()).(retries := 0), delay, reconnectCount)
    {
      if controlSocket {
        return ALREADYCONNECTED;
      }
      retryCount := 0;
      res := ContinueConnect(delay);
    }

    /** The socket is closed first, which already answers the command, and then destroyed, which must not answer it again. */
    method Disconnect(levels: nat) returns (res: Code)
      modifies this
      ensures res == OK
      ensures Value() ==
        if old(controlSocket) then
          L.DestroySocket(L.ResetOperation(old(Value()), ERROR | DISCONNECTED, reconnectCount).0, levels, reconnectCount)
        else old(Value())
    {
      hide L.ResetOperation, L.DestroySocket;
      if controlSocket {
        var _ := ResetOperation(ERROR | DISCONNECTED);
        DestroySocket(levels);
      }
      return OK;
    }

    method OnTimer(delay: bool, levels: nat, reports: seq<Code>)
      modifies this
      ensures Value() == L.OnTimer(old(Value()), delay, levels, reports, reconnectCount)
    {
      hide L.ResetOperation, L.Reports, L.Finish, L.ContinueConnect, L.DestroySocket;
      if !retryTimer {
        return;
      }
      if currentCommand.None? || !currentCommand.value.Connect? {
        retryTimer := false;
        return;
      }
      DestroySocket(levels);
      retryTimer := false;
      var res := ContinueConnect(delay);
      Finish(res, reports);
    }

    method DoCancel(levels: nat, reports: seq<Code>)
      modifies this
      ensures Value() == L.DoCancel(old(Value()), levels, reports, reconnectCount)
    {
      hide L.ResetOperation, L.Reports, L.DestroySocket;
      if currentCommand.None? {
        return;
      }
      if retryTimer {
        DestroySocket(levels);
        currentCommand, retryTimer := None, false;
        notifications := notifications + [L.Notification(DISCONNECTED | CANCELED, L.Connect(true, true))];
      } else if controlSocket {
        SocketWorks(reports);
      } else {
        var _ := ResetOperation(CANCELED);
      }
    }
  }
}
