/**
 The append-only budget ledger (src/acp/db/repositories.py, class LedgerRepo).

 A balance is a fold over the rows of one scope. `ChargeAtomic` is the single write
 transaction that checks the ceiling and appends reserve, commit and release rows; its
 specification is `Charge`, and the theorems below speak about whole lists of charges that
 several scopes issue in any order.
 */
module Ledger {
  import opened Common

  datatype EntryKind = Reserve | Commit | Release

  datatype LedgerRow = LedgerRow(
    scope: string, kind: EntryKind, taskId: Option<string>, stepIndex: Option<int>, tokens: int, note: string)

  /** What one row adds to the committed spend of a scope. */
  function Spend(row: LedgerRow, scope: string): int {
    if row.scope == scope && row.kind == Commit then row.tokens else 0
  }

  /** What one row adds to the net reservation of a scope. */
  function Hold(row: LedgerRow, scope: string): int {
    if row.scope != scope || row.kind == Commit then 0
    else if row.kind == Reserve then row.tokens else -row.tokens
  }

  function SpentTokens(rows: seq<LedgerRow>, scope: string): int {
    if rows == [] then 0 else SpentTokens(rows[..|rows| - 1], scope) + Spend(rows[|rows| - 1], scope)
  }

  function ReservedTokens(rows: seq<LedgerRow>, scope: string): int {
    if rows == [] then 0 else ReservedTokens(rows[..|rows| - 1], scope) + Hold(rows[|rows| - 1], scope)
  }

  lemma BalancesAfterAppend(rows: seq<LedgerRow>, row: LedgerRow, scope: string)
    ensures SpentTokens(rows + [row], scope) == SpentTokens(rows, scope) + Spend(row, scope)
    ensures ReservedTokens(rows + [row], scope) == ReservedTokens(rows, scope) + Hold(row, scope)
  {
    assert (rows + [row])[..|rows|] == rows;
  }

  /** The three rows of one granted charge. */
  function ChargeRows(scope: string, tokens: nat, taskId: Option<string>, stepIndex: Option<int>, note: string)
    : seq<LedgerRow>
  {
    [LedgerRow(scope, Reserve, taskId, stepIndex, tokens, note),
     LedgerRow(scope, Commit, taskId, stepIndex, tokens, note),
     LedgerRow(scope, Release, taskId, stepIndex, tokens, note)]
  }

  /** The ledger after one atomic charge, or None when the charge is refused. */
  function Charge(rows: seq<LedgerRow>, scope: string, tokens: nat, budget: int,
                  taskId: Option<string>, stepIndex: Option<int>, note: string): Option<seq<LedgerRow>>
  {
    if tokens > budget - SpentTokens(rows, scope) - ReservedTokens(rows, scope) then None
    else Some(rows + ChargeRows(scope, tokens, taskId, stepIndex, note))
  }

  /** A granted charge raises the spend of its own scope by its cost, nets out its reservation, and
      leaves every other scope's balances alone. */
  lemma ChargeMovesOnlyItsScope(rows: seq<LedgerRow>, scope: string, tokens: nat, taskId: Option<string>,
                                stepIndex: Option<int>, note: string, other: string)
    ensures var after := rows + ChargeRows(scope, tokens, taskId, stepIndex, note);
            && SpentTokens(after, other) == SpentTokens(rows, other) + (if other == scope then tokens else 0)
            && ReservedTokens(after, other) == ReservedTokens(rows, other)
  {
    var three := ChargeRows(scope, tokens, taskId, stepIndex, note);
    var one := rows + [three[0]];
    var two := one + [three[1]];
    assert rows + three == two + [three[2]];
    BalancesAfterAppend(rows, three[0], other);
    BalancesAfterAppend(one, three[1], other);
    BalancesAfterAppend(two, three[2], other);
  }

  // ---------------------------------------------------------------------------------------------
  // The repository: rows are only ever appended.

  class LedgerRepo {
    var rows: seq<LedgerRow>

    constructor ()
      ensures rows == []
    {
      rows := [];
    }

    method Append(row: LedgerRow)
      modifies this
      ensures rows == old(rows) + [row]
    {
      rows := rows + [row];
    }

    method ChargeAtomic(scope: string, tokens: nat, budget: int, taskId: Option<string>, stepIndex: Option<int>,
                        note: string)
      returns (granted: bool)
      modifies this
      ensures var outcome := Charge(old(rows), scope, tokens, budget, taskId, stepIndex, note);
              && granted == outcome.Some?
              && rows == (if granted then outcome.value else old(rows))
    {
      var remaining := budget - SpentTokens(rows, scope) - ReservedTokens(rows, scope);
      if tokens > remaining {
        return false;
      }
      ghost var before := rows;
      var kinds := [Reserve, Commit, Release];
      for i := 0 to |kinds|
        invariant rows == before + ChargeRows(scope, tokens, taskId, stepIndex, note)[..i]
      {
        rows := rows + [LedgerRow(scope, kinds[i], taskId, stepIndex, tokens, note)];
      }
      return true;
    }
  }

  // ---------------------------------------------------------------------------------------------
  // Any interleaving of charges: the calls in the order in which they take the write lock.

  datatype Call = Call(scope: string, tokens: nat, taskId: Option<string>, stepIndex: Option<int>, note: string)

  function ServeOne(rows: seq<LedgerRow>, call: Call, budget: string -> int): Option<seq<LedgerRow>> {
    Charge(rows, call.scope, call.tokens, budget(call.scope), call.taskId, call.stepIndex, call.note)
  }

  /** The ledger after all calls, starting empty; a refused call writes nothing. */
  function Serve(calls: seq<Call>, budget: string -> int): seq<LedgerRow> {
    if calls == [] then [] else
    var before := Serve(calls[..|calls| - 1], budget);
    match ServeOne(before, calls[|calls| - 1], budget)
    case None => before
    case Some(after) => after
  }

  predicate Granted(calls: seq<Call>, i: nat, budget: string -> int)
    requires i < |calls|
  {
    ServeOne(Serve(calls[..i], budget), calls[i], budget).Some?
  }

  /** Total cost of the granted calls on one scope. */
  function GrantedTokens(calls: seq<Call>, scope: string, budget: string -> int): nat {
    if calls == [] then 0 else
    var last := |calls| - 1;
    GrantedTokens(calls[..last], scope, budget)
    + (if calls[last].scope == scope && Granted(calls, last, budget) then calls[last].tokens else 0)
  }

  function GrantedCount(calls: seq<Call>, scope: string, budget: string -> int): nat {
    if calls == [] then 0 else
    var last := |calls| - 1;
    GrantedCount(calls[..last], scope, budget)
    + (if calls[last].scope == scope && Granted(calls, last, budget) then 1 else 0)
  }

  function CallCount(calls: seq<Call>, scope: string): nat {
    if calls == [] then 0 else
    var last := |calls| - 1;
    CallCount(calls[..last], scope) + (if calls[last].scope == scope then 1 else 0)
  }

  /** For every interleaving and every scope: the spend is exactly what was granted, it never passes the
      ceiling, and no reservation is left behind. */
  lemma {:induction false} SpendIsWhatWasGranted(calls: seq<Call>, scope: string, budget: string -> int)
    requires budget(scope) >= 0
    ensures SpentTokens(Serve(calls, budget), scope) == GrantedTokens(calls, scope, budget) <= budget(scope)
    ensures ReservedTokens(Serve(calls, budget), scope) == 0
  {
    if calls != [] {
      var last := |calls| - 1;
      SpendIsWhatWasGranted(calls[..last], scope, budget);
      var before, c := Serve(calls[..last], budget), calls[last];
      if ServeOne(before, c, budget).Some? {
        ChargeMovesOnlyItsScope(before, c.scope, c.tokens, c.taskId, c.stepIndex, c.note, scope);
      }
    }
  }

  /** A refused call leaves the ledger identical; a granted one keeps every earlier row. */
  lemma ServedLedgerOnlyGrows(calls: seq<Call>, i: nat, budget: string -> int)
    requires i < |calls|
    ensures Serve(calls[..i], budget) <= Serve(calls[..i + 1], budget)
    ensures !Granted(calls, i, budget) ==> Serve(calls[..i + 1], budget) == Serve(calls[..i], budget)
  {
    assert calls[..i + 1][..i] == calls[..i];
  }

  /** With one positive price on a scope, exactly min(calls, budget / price) of its calls are granted, whatever
      the other scopes do in between. */
  lemma UniformPriceGrantsExactly(calls: seq<Call>, scope: string, price: nat, budget: string -> int)
    requires price > 0 && budget(scope) >= 0
    requires forall c <- calls :: c.scope == scope ==> c.tokens == price
    ensures GrantedCount(calls, scope, budget)
         == Min(CallCount(calls, scope), budget(scope) / price)
  {
    var q := budget(scope) / price;
    assert price * (q + 1) == price * q + price;
    GrantsUpToQuota(calls, scope, price, q, budget);
  }

  function Min(a: int, b: int): int {
    if a <= b then a else b
  }

  lemma {:induction false} GrantsUpToQuota(calls: seq<Call>, scope: string, price: nat, quota: nat,
                                           budget: string -> int)
    requires price > 0 && price * quota <= budget(scope) < price * (quota + 1)
    requires forall c <- calls :: c.scope == scope ==> c.tokens == price
    ensures GrantedTokens(calls, scope, budget) == price * GrantedCount(calls, scope, budget)
    ensures GrantedCount(calls, scope, budget) == Min(CallCount(calls, scope), quota)
  {
    if calls != [] {
      var last := |calls| - 1;
      GrantsUpToQuota(calls[..last], scope, price, quota, budget);
      assert calls[last] in calls;
      if calls[last].scope == scope {
        GrantedIffBelowQuota(calls, scope, price, quota, budget);
      }
    }
  }

  lemma GrantedIffBelowQuota(calls: seq<Call>, scope: string, price: nat, quota: nat, budget: string -> int)
    requires price > 0 && price * quota <= budget(scope) < price * (quota + 1)
    requires calls != [] && calls[|calls| - 1].scope == scope && calls[|calls| - 1].tokens == price
    requires var past := calls[..|calls| - 1];
             GrantedTokens(past, scope, budget) == price * GrantedCount(past, scope, budget)
    ensures var count := GrantedCount(calls[..|calls| - 1], scope, budget);
            && (Granted(calls, |calls| - 1, budget) <==> count < quota)
            && price * (count + 1) == price * count + price
  {
    var past := calls[..|calls| - 1];
    SpendIsWhatWasGranted(past, scope, budget);
    FitsIff(price, GrantedCount(past, scope, budget), quota, budget(scope));
  }

  lemma FitsIff(price: nat, count: nat, quota: nat, budget: int)
    requires price > 0 && price * quota <= budget < price * (quota + 1)
    ensures price <= budget - price * count <==> count < quota
    ensures price * (count + 1) == price * count + price
  {
    if count < quota {
      assert price * (count + 1) <= price * quota;
    } else {
      assert price * quota <= price * count;
      assert price * (quota + 1) <= price * (count + 1);
    }
  }
}
