/** The per-origin ceiling on calls (`packages/athena-bridge/gate.js`, `Budget`). */
module BridgeBudget {

  const DEFAULT_CALL_BUDGET := 50

  datatype Op = Take(origin: string) | ResetOne(origin: string) | ResetAll

  function UsedIn(spent: map<string, nat>, origin: string): nat {
    if origin in spent then spent[origin] else 0
  }

  predicate Admits(limit: int, spent: map<string, nat>, origin: string) {
    UsedIn(spent, origin) < limit
  }

  function Claim(limit: int, spent: map<string, nat>, origin: string): map<string, nat> {
    if Admits(limit, spent, origin) then spent[origin := UsedIn(spent, origin) + 1] else spent
  }

  function Apply(limit: int, spent: map<string, nat>, op: Op): map<string, nat> {
    match op
    case Take(origin) => Claim(limit, spent, origin)
    case ResetOne(origin) => spent - {origin}
    case ResetAll => map[]
  }

  function AfterOps(limit: int, ops: seq<Op>): map<string, nat> {
    if ops == [] then map[] else Apply(limit, AfterOps(limit, ops[..|ops| - 1]), ops[|ops| - 1])
  }

  predicate Resets(op: Op, origin: string) {
    op == ResetAll || op == ResetOne(origin)
  }

  /** Calls asked for, and calls let through, since the origin's window last rolled. */
  function AskedFor(ops: seq<Op>, origin: string): nat {
    if ops == [] || Resets(ops[|ops| - 1], origin) then 0
    else AskedFor(ops[..|ops| - 1], origin) + if ops[|ops| - 1] == Take(origin) then 1 else 0
  }

  function LetThrough(limit: int, ops: seq<Op>, origin: string): nat {
    if ops == [] || Resets(ops[|ops| - 1], origin) then 0
    else
      LetThrough(limit, ops[..|ops| - 1], origin)
      + if ops[|ops| - 1] == Take(origin) && Admits(limit, AfterOps(limit, ops[..|ops| - 1]), origin) then 1 else 0
  }

  /** In a window, the first `limit` calls of an origin are let through and no other, whatever other origins do. */
  lemma {:induction false} WindowHolds(limit: int, ops: seq<Op>, origin: string)
    ensures UsedIn(AfterOps(limit, ops), origin) == LetThrough(limit, ops, origin)
    ensures LetThrough(limit, ops, origin) ==
            if limit < 0 then 0 else if AskedFor(ops, origin) < limit then AskedFor(ops, origin) else limit
  {
    if ops == [] {
    } else {
      WindowHolds(limit, ops[..|ops| - 1], origin);
    }
  }

  class Budget {
    const limit: int
    var spent: map<string, nat>

    constructor (limit: int := DEFAULT_CALL_BUDGET)
      ensures this.limit == limit && spent == map[]
    {
      this.limit := limit;
      spent := map[];
    }

    function Used(origin: string): nat
      reads this
    {
      UsedIn(spent, origin)
    }

    function Remaining(origin: string): (left: nat)
      reads this
      ensures left > 0 <==> Admits(limit, spent, origin)
      ensures left > 0 ==> left + Used(origin) == limit
    {
      if limit - Used(origin) > 0 then limit - Used(origin) else 0
    }

    method TakeOne(origin: string) returns (ok: bool)
      modifies this`spent
      ensures ok == Admits(limit, old(spent), origin) && spent == Claim(limit, old(spent), origin)
    {
      var used := Used(origin);
      if used >= limit { return false; }
      spent := spent[origin := used + 1];
      ok := true;
    }

    method Reset(origin: string)
      modifies this`spent
      ensures spent == Apply(limit, old(spent), ResetOne(origin))
    {
      spent := spent - {origin};
    }

    method ResetEvery()
      modifies this`spent
      ensures spent == Apply(limit, old(spent), ResetAll)
    {
      spent := map[];
    }
  }
}
