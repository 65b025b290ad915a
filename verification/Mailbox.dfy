/** Offline mailboxes over any run: which frames a drain returns, and when overflow is reported. */
module Mailbox {
  import opened HubState

  /** Step op empties the mailbox of id. */
  predicate Empties(h: Hub, op: Op, id: Id) {
    op == Drain(id) || (op.Evict? && op.id == id && EvictAllowed(h, id)) || op == Restart
  }

  /** The frames enqueued for id in the first k steps, since its mailbox was last emptied. */
  function Pending(states: seq<Hub>, ops: seq<Op>, k: nat, id: Id): seq<Frame>
    requires k <= |ops| <= |states|
  {
    if k == 0 || Empties(states[k - 1], ops[k - 1], id) then []
    else
      var before := Pending(states, ops, k - 1, id);
      if ops[k - 1].Enqueue? && ops[k - 1].id == id then before + [ops[k - 1].f] else before
  }

  /**
   * At any time the mailbox holds the last hundred of the frames enqueued since the previous
   * drain or eviction, in order, and the overflow flag is set exactly when there were more.
   */
  lemma {:induction false} MailboxIsTail(states: seq<Hub>, ops: seq<Op>, k: nat, id: Id)
    requires IsRun(states, ops) && k <= |ops|
    ensures MailOf(states[k], id) == LastOf(Pending(states, ops, k, id), MAILBOX_CAP)
    ensures id in states[k].overflow <==> |Pending(states, ops, k, id)| > MAILBOX_CAP
  {
    if k > 0 {
      MailboxIsTail(states, ops, k - 1, id);
      var h, op := states[k - 1], ops[k - 1];
      assert Follows(h, op, states[k]);
      if op.Enqueue? && op.id == id {
        var before := Pending(states, ops, k - 1, id);
        TailGrows(before, op.f);
      }
    }
  }

  lemma TailGrows<T>(q: seq<T>, x: T)
    ensures LastOf(LastOf(q, MAILBOX_CAP) + [x], MAILBOX_CAP) == LastOf(q + [x], MAILBOX_CAP)
    ensures |LastOf(q, MAILBOX_CAP) + [x]| > MAILBOX_CAP <==> |q + [x]| > MAILBOX_CAP
  {
  }

  /** In a row of n frames the mailbox is the end of the row, all of it up to the cap. */
  lemma MailboxHoldsNewest(states: seq<Hub>, ops: seq<Op>, k: nat, id: Id)
    requires IsRun(states, ops) && k <= |ops|
    ensures var n, mail := |Pending(states, ops, k, id)|, MailOf(states[k], id);
      |mail| == (if n > 100 then 100 else n) && Pending(states, ops, k, id)[n - |mail|..] == mail
  {
    MailboxIsTail(states, ops, k, id);
  }

  /** A set overflow flag means a full mailbox. */
  lemma OverflowMeansFull(states: seq<Hub>, ops: seq<Op>, k: nat, id: Id)
    requires IsRun(states, ops) && k <= |ops| && id in states[k].overflow
    ensures |MailOf(states[k], id)| == 100
  {
    MailboxIsTail(states, ops, k, id);
  }
}
