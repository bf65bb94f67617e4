/** The reply store as it changes its two maps in place (`internal/agent/reply_store.go`), one method per
    exported operation: the critical section and the send or close after it, proved against `ReplySpec`. */
module ReplyStores {
  import opened ReplySpec

  /** A channel with one buffer slot. */
  class Chan {
    var buffer: seq<string>
    var closed: bool

    ghost predicate Untouched()
      reads this
    {
      buffer == [] && !closed
    }

    constructor ()
      ensures Untouched()
    {
      buffer, closed := [], false;
    }

    /** A send that gives up when the buffer is full; sending on a closed channel would panic. */
    method TrySend(answer: string)
      requires !closed
      modifies this
      ensures closed == old(closed) && buffer == if old(buffer) == [] then [answer] else old(buffer)
    {
      if buffer == [] {
        buffer := [answer];
      }
    }

    /** Closing twice would panic. */
    method Close()
      requires !closed
      modifies this
      ensures closed && buffer == old(buffer)
    {
      closed := true;
    }
  }

  class ReplyStore {
    var byMsgID: map<int, Entry<Chan>>
    var byTask: map<string, seq<int>>

    ghost function State(): Store<Chan>
      reads this
    {
      Store(byMsgID, byTask)
    }

    ghost function Channels(): set<Chan>
      reads this
    {
      set m | m in byMsgID :: byMsgID[m].ch
    }

    /** Every entry has a channel of its own, which nobody used yet. */
    ghost predicate Valid()
      reads this, Channels()
    {
      && (forall m :: m in byMsgID ==> byMsgID[m].ch.Untouched())
      && (forall m, n :: m in byMsgID && n in byMsgID && byMsgID[m].ch == byMsgID[n].ch ==> m == n)
    }

    constructor ()
      ensures Valid() && State() == Store(map[], map[])
    {
      byMsgID, byTask := map[], map[];
    }

    method Register(msgID: int, taskID: string, questionID: string) returns (ch: Chan)
      requires Valid()
      modifies this
      ensures Valid() && fresh(ch) && ch.Untouched()
      ensures State() == Registered(old(State()), msgID, taskID, questionID, ch)
    {
      ch := new Chan();
      byMsgID := byMsgID[msgID := Entry(ch, taskID, questionID)];
      byTask := byTask[taskID := Listed(byTask, taskID) + [msgID]];
    }

    /** Drop the first occurrence of a message from a task's list, and an empty list from the index. */
    method Unlist(msgID: int, taskID: string)
      modifies this`byTask
      ensures byTask == WithList(old(byTask), taskID, RemoveFirst(Listed(old(byTask), taskID), msgID))
    {
      var msgs := Listed(byTask, taskID);
      var i := 0;
      while i < |msgs| && msgs[i] != msgID
        invariant 0 <= i <= |msgs|
        invariant RemoveFirst(msgs, msgID) == msgs[..i] + RemoveFirst(msgs[i..], msgID)
      {
        assert msgs[i..][1..] == msgs[i + 1..];
        i := i + 1;
      }
      if i < |msgs| {
        assert msgs[i..][1..] == msgs[i + 1..];
        byTask := byTask[taskID := msgs[..i] + msgs[i + 1..]];
      } else {
        assert msgs == msgs[..i] + [];
      }
      if |Listed(byTask, taskID)| == 0 {
        byTask := byTask - {taskID};
      }
    }

    /** Answer a message: its channel gets the answer and the entry goes; unknown messages change nothing. */
    method Resolve(msgID: int, answer: string)
      requires Valid()
      modifies this, Channels()
      ensures Valid()
      ensures msgID !in old(byMsgID) ==> State() == old(State())
      ensures msgID in old(byMsgID) ==>
        && State() == Removed(old(State()), msgID)
        && old(byMsgID[msgID].ch).buffer == [answer] && !old(byMsgID[msgID].ch).closed
    {
      if msgID !in byMsgID {
        return;
      }
      var entry := byMsgID[msgID];
      byMsgID := byMsgID - {msgID};
      Unlist(msgID, entry.taskID);
      entry.ch.TrySend(answer);
    }

    /** Answer the first listed message of a task. */
    method ResolveByTask(taskID: string, answer: string) returns (found: bool)
      requires Valid()
      modifies this, Channels()
      ensures Valid()
      ensures found <==> Listed(old(byTask), taskID) != []
      ensures !found ==> State() == old(State())
      ensures found ==>
        var first := Listed(old(byTask), taskID)[0];
        && State() == TakenFirst(old(State()), taskID)
        && (first in old(byMsgID) ==> old(byMsgID)[first].ch.buffer == [answer] && !old(byMsgID)[first].ch.closed)
    {
      var msgs := Listed(byTask, taskID);
      if |msgs| == 0 {
        return false;
      }
      var msgID := msgs[0];
      byTask := byTask[taskID := msgs[1..]];
      if |byTask[taskID]| == 0 {
        byTask := byTask - {taskID};
      }
      if msgID in byMsgID {
        var entry := byMsgID[msgID];
        byMsgID := byMsgID - {msgID};
        entry.ch.TrySend(answer);
      } else {
        byMsgID := byMsgID - {msgID};
      }
      return true;
    }

    /** Give up on a message: the entry goes and its channel is closed, unanswered. */
    method UnregisterByMsgID(msgID: int)
      requires Valid()
      modifies this, Channels()
      ensures Valid()
      ensures msgID !in old(byMsgID) ==> State() == old(State())
      ensures msgID in old(byMsgID) ==>
        && State() == Removed(old(State()), msgID)
        && old(byMsgID[msgID].ch).buffer == [] && old(byMsgID[msgID].ch).closed
    {
      if msgID !in byMsgID {
        return;
      }
      var entry := byMsgID[msgID];
      byMsgID := byMsgID - {msgID};
      Unlist(msgID, entry.taskID);
      entry.ch.Close();
    }

    method Unregister(msgID: int, taskID: string)
      requires Valid()
      modifies this
      ensures Valid() && State() == Unregistered(old(State()), msgID, taskID)
    {
      byMsgID := byMsgID - {msgID};
      Unlist(msgID, taskID);
    }

    method Relist(oldMsgID: int, newMsgID: int, taskID: string)
      modifies this`byTask
      ensures byTask == if taskID in old(byTask)
                        then old(byTask)[taskID := ReplaceFirst(old(byTask)[taskID], oldMsgID, newMsgID)] else old(byTask)
    {
      var msgs := Listed(byTask, taskID);
      var i := 0;
      while i < |msgs| && msgs[i] != oldMsgID
        invariant 0 <= i <= |msgs|
        invariant ReplaceFirst(msgs, oldMsgID, newMsgID) == msgs[..i] + ReplaceFirst(msgs[i..], oldMsgID, newMsgID)
      {
        assert msgs[i..][1..] == msgs[i + 1..];
        i := i + 1;
      }
      if i < |msgs| {
        assert msgs[i..][1..] == msgs[i + 1..];
        assert msgs[i := newMsgID] == msgs[..i] + ([newMsgID] + msgs[i + 1..]);
        byTask := byTask[taskID := msgs[i := newMsgID]];
      } else {
        assert msgs == msgs[..i] + [];
      }
    }

    /** Move an entry to another message ID, keeping its channel and its place in the task's list. */
    method Reregister(oldMsgID: int, newMsgID: int, taskID: string, questionID: string)
      requires Valid()
      modifies this
      ensures Valid() && State() == Reregistered(old(State()), oldMsgID, newMsgID, taskID, questionID)
    {
      if oldMsgID !in byMsgID {
        return;
      }
      var entry := byMsgID[oldMsgID];
      byMsgID := byMsgID - {oldMsgID};
      Relist(oldMsgID, newMsgID, taskID);
      byMsgID := byMsgID[newMsgID := Entry(entry.ch, taskID, questionID)];
    }

    /** Whether a message is listed for the task; while the indexes are inverse, whether an entry of the task waits. */
    method HasPending(taskID: string) returns (pending: bool)
      ensures pending <==> Listed(byTask, taskID) != []
      ensures Inverse(State()) ==> (pending <==> exists m :: m in byMsgID && byMsgID[m].taskID == taskID)
    {
      ListedIffPending(State(), taskID);
      pending := |Listed(byTask, taskID)| > 0;
    }
  }
}
