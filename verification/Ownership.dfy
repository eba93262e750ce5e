/**
 Who owns a dialled connection: the shared field, `run`, or `Close` — exactly one
 of them, and only one connection is ever unclosed.
 */
module Ownership {
  import opened Wrappers
  import opened Declaring
  import opened Protocol

  function Slot(o: Option<Conn>): set<Conn> {
    match o
    case None => {}
    case Some(k) => {k}
  }

  /** `Close` has swapped the connection out. */
  predicate Swapped(at: CloseAt) {
    at == CloseClosing || at == CloseWaiting || at == Returned
  }

  /** Where each connection may be, by program counter; at most one place is taken. */
  predicate Placed(c: Client) {
    && (c.run.held != None ==> c.run.at == RunClosing)
    && (c.run.next != None <==> c.run.at == Installing)
    && (c.close.held != None ==> c.close.at == CloseClosing)
    && (c.sh.conn != None ==> c.run.at in {Serving, Failing, RunSwapping, Signalling})
    && (c.run.at in {Serving, Failing, RunSwapping, Signalling} && c.sh.conn == None ==> Swapped(c.close.at))
    && (c.close.held != None ==> c.run.at !in {Dialling, Installing} && c.sh.conn == None && c.run.held == None)
  }

  function Owned(c: Client): set<Conn> {
    Slot(c.sh.conn) + Slot(c.run.held) + Slot(c.run.next) + Slot(c.close.held)
  }

  /** Every connection dialled so far is either open or has been closed, once. */
  predicate Ledger(net: Net) {
    && (forall k :: k in net.open ==> k <= net.dialled)
    && (forall i :: 0 <= i < |net.closings| ==> net.closings[i].conn <= net.dialled)
    && (forall i :: 0 <= i < |net.closings| ==> net.closings[i].conn !in net.open)
    && (forall i, j :: 0 <= i < j < |net.closings| ==> net.closings[i].conn != net.closings[j].conn)
    && (forall k: nat :: k <= net.dialled ==> k in net.open || exists i :: 0 <= i < |net.closings| && net.closings[i].conn == k)
  }

  predicate Sound(c: Client) {
    Placed(c) && c.net.open == Owned(c) && Ledger(c.net)
  }

  lemma LedgerClose(net: Net, held: Option<Conn>, closer: Closer)
    requires Ledger(net) && Slot(held) <= net.open
    ensures Ledger(CloseConn(net, held, closer))
  {
    if held != None {
      var after := CloseConn(net, held, closer);
      forall k: nat | k <= after.dialled
        ensures k in after.open || exists i :: 0 <= i < |after.closings| && after.closings[i].conn == k
      {
        if k == held.value {
          assert after.closings[|net.closings|].conn == k;
        } else if k !in net.open {
          var i :| 0 <= i < |net.closings| && net.closings[i].conn == k;
          assert after.closings[i].conn == k;
        }
      }
    }
  }

  lemma RunSound(c: Client, u: RunStep)
    requires Sound(c) && RunEnabled(c, u)
    ensures Sound(RunApply(c, u))
  {
    if u.RunClose? {
      LedgerClose(c.net, c.run.held, ByRun);
    }
  }

  lemma CloseSound(c: Client, k: CloseStep)
    requires Sound(c) && CloseEnabled(c, k)
    ensures Sound(CloseApply(c, k))
  {
    if k.CloseIt? {
      LedgerClose(c.net, c.close.held, ByClose);
    }
  }

  lemma GatherSound(c: Client, g: GatherStep)
    requires Sound(c) && GatherEnabled(c, g)
    ensures Sound(GatherApply(c, g))
  {
  }

  lemma SendSound(c: Client, e: SendStep)
    requires Sound(c) && SendEnabled(c, e)
    ensures Sound(SendApply(c, e))
  {
  }

  lemma ReadSound(c: Client, r: ReadStep)
    requires Sound(c) && ReadEnabled(c, r)
    ensures Sound(ReadApply(c, r))
  {
  }
}
