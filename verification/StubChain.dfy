/** The in-memory chain client: proposals keyed by allocation, numbered transaction hashes. */
module StubChain {
  import opened Wrappers
  import opened MintSaga
  import opened Decimal

  const REQUIRED_APPROVALS: int := 3

  datatype ProposalStatus = ProposalNone | ProposalProposed | ProposalExecuted | ProposalCancelled

  datatype Proposal = Proposal(
    status: ProposalStatus,
    approvals: Approvals,
    req: MintRequest,
    executedTx: string,
    proposedTx: string)

  datatype Chain = Chain(proposals: map<nat, Proposal>, nextTx: nat)

  // ------------------------------------------------------------------ transaction hashes

  /** Writes the digits from the end of a 20-byte buffer, which any 64-bit number fits. */
  method Itoa(n: nat) returns (s: string)
    requires n < 0x8000_0000_0000_0000
    ensures s == Print(n)
  {
    if n == 0 {
      return "0";
    }
    var buf := new char[20](_ => '0');
    var i, m := buf.Length, n;
    assert Power10(20) == 100_000_000_000_000_000_000 by {
      assert Power10(4) == 10_000;
      assert Power10(8) == 100_000_000;
      assert Power10(12) == 1_000_000_000_000;
      assert Power10(16) == 10_000_000_000_000_000;
    }
    DigitsLength(n, 20);
    while m > 0
      invariant 0 <= m && 0 <= i <= 20
      invariant |Digits(m)| <= i
      invariant Digits(m) + buf[i..] == Digits(n)
    {
      i := i - 1;
      ghost var tail := buf[i + 1..];
      buf[i] := ('0' as int + m % 10) as char;
      assert buf[i..] == [('0' as int + m % 10) as char] + tail;
      m := m / 10;
    }
    return buf[i..];
  }

  function TxHash(prefix: string, n: nat): string {
    prefix + "_tx_" + Print(n)
  }

  lemma TxHashInjective(prefix: string, m: nat, n: nat)
    requires TxHash(prefix, m) == TxHash(prefix, n)
    ensures m == n
  {
    var p := prefix + "_tx_";
    assert TxHash(prefix, m)[|p|..] == Print(m);
    assert TxHash(prefix, n)[|p|..] == Print(n);
    PrintInjective(m, n);
  }

  // ------------------------------------------------------------------------ client calls

  function Proposed(c: Chain, req: MintRequest): Chain {
    Chain(c.proposals[req.allocation := Proposal(ProposalProposed, 0, req, "", TxHash("propose", c.nextTx + 1))],
          c.nextTx + 1)
  }

  function ProposeReply(c: Chain): Result<string, ChainError> {
    Ok(TxHash("propose", c.nextTx + 1))
  }

  function Executed(c: Chain, id: nat): Chain {
    if id in c.proposals && c.proposals[id].approvals >= REQUIRED_APPROVALS then
      Chain(c.proposals[id := c.proposals[id].(status := ProposalExecuted, executedTx := TxHash("execute", c.nextTx + 1))],
            c.nextTx + 1)
    else c
  }

  function ExecuteReply(c: Chain, id: nat): Result<string, ChainError> {
    if id !in c.proposals then Err(ErrProposalNotFound)
    else if c.proposals[id].approvals < REQUIRED_APPROVALS then Err(ErrInsufficientApprovals)
    else Ok(TxHash("execute", c.nextTx + 1))
  }

  function ApprovalsReply(c: Chain, id: nat): Result<Approvals, ChainError> {
    Ok(if id in c.proposals then c.proposals[id].approvals else 0)
  }

  /** The counter is one byte wide and wraps. */
  function Approved(c: Chain, id: nat): Chain
    requires id in c.proposals
  {
    c.(proposals := c.proposals[id := c.proposals[id].(approvals := (c.proposals[id].approvals + 1) % 256)])
  }

  class StubClient {
    var proposals: map<nat, Proposal>
    var nextTx: nat

    constructor ()
      ensures View() == Chain(map[], 0)
    {
      proposals, nextTx := map[], 0;
    }

    ghost function View(): Chain
      reads this
    {
      Chain(proposals, nextTx)
    }

    method NextHash(prefix: string) returns (tx: string)
      modifies this`nextTx
      ensures nextTx == old(nextTx) + 1 && tx == TxHash(prefix, nextTx)
    {
      nextTx := nextTx + 1;
      tx := prefix + "_tx_" + Print(nextTx);
    }

    method ProposeMint(req: MintRequest) returns (r: Result<string, ChainError>)
      modifies this
      ensures View() == Proposed(old(View()), req) && r == ProposeReply(old(View()))
    {
      var tx := NextHash("propose");
      proposals := proposals[req.allocation := Proposal(ProposalProposed, 0, req, "", tx)];
      r := Ok(proposals[req.allocation].proposedTx);
    }

    method ExecuteMint(id: nat) returns (r: Result<string, ChainError>)
      modifies this
      ensures View() == Executed(old(View()), id) && r == ExecuteReply(old(View()), id)
    {
      if id !in proposals {
        return Err(ErrProposalNotFound);
      }
      if proposals[id].approvals < REQUIRED_APPROVALS {
        return Err(ErrInsufficientApprovals);
      }
      proposals := proposals[id := proposals[id].(status := ProposalExecuted)];
      var tx := NextHash("execute");
      proposals := proposals[id := proposals[id].(executedTx := tx)];
      r := Ok(tx);
    }

    /** Never fails, and reaches the required number exactly where an execution would succeed. */
    method ApprovalCount(id: nat) returns (r: Result<Approvals, ChainError>)
      ensures r == ApprovalsReply(View(), id)
      ensures r.Ok? && (r.value >= REQUIRED_APPROVALS <==> ExecuteReply(View(), id).Ok?)
    {
      if id in proposals {
        return Ok(proposals[id].approvals);
      }
      r := Ok(0);
    }

    method AddApproval(id: nat)
      requires id in proposals
      modifies this
      ensures View() == Approved(old(View()), id)
    {
      proposals := proposals[id := proposals[id].(approvals := (proposals[id].approvals + 1) % 256)];
    }
  }
}
