// The table behind the claims (internal/queue/postgres.go): a row is put, claimed by a conditional update, released
// and deleted. A claim is judged here by the history of the table alone.
module ClaimTable {
  import opened Wrappers

  // Ids and replicas are only compared.
  type Id = nat

  type Replica = nat

  datatype Claim = Claim(owner: Replica, at: nat)

  // A row's claimed_by and claimed_at, or none.
  type Rows = map<Id, Option<Claim>>

  // The condition of the update: unclaimed, or claimed longer than the lease ago.
  predicate Claimable(rows: Rows, id: Id, now: nat, lease: nat) {
    id in rows && (rows[id].None? || rows[id].value.at + lease < now)
  }

  datatype Op = Put(id: Id) | Try(id: Id, owner: Replica) | Release(id: Id) | Delete(id: Id) | Clock(ticks: nat)

  function Apply(rows: Rows, op: Op, now: nat, lease: nat): Rows {
    match op
    case Put(id) => rows[id := None]
    case Try(id, owner) => if Claimable(rows, id, now, lease) then rows[id := Some(Claim(owner, now))] else rows
    case Release(id) => if id in rows then rows[id := None] else rows
    case Delete(id) => rows - {id}
    case Clock(_) => rows
  }

  function Elapsed(ops: seq<Op>): nat {
    if ops == [] then 0
    else Elapsed(ops[..|ops| - 1]) + (if ops[|ops| - 1].Clock? then ops[|ops| - 1].ticks else 0)
  }

  function When(ops: seq<Op>, k: nat): nat { if k <= |ops| then Elapsed(ops[..k]) else 0 }

  function After(ops: seq<Op>, lease: nat): Rows {
    if ops == [] then map[]
    else Apply(After(ops[..|ops| - 1], lease), ops[|ops| - 1], Elapsed(ops[..|ops| - 1]), lease)
  }

  // ----- the history ------------------------------------------------------------------------------------------

  predicate Won(ops: seq<Op>, k: nat, lease: nat, id: Id) {
    k < |ops| && ops[k].Try? && ops[k].id == id && Claimable(After(ops[..k], lease), id, Elapsed(ops[..k]), lease)
  }

  predicate Frees(op: Op, id: Id) { op == Put(id) || op == Release(id) || op == Delete(id) }

  ghost predicate NotFreedSince(ops: seq<Op>, k: nat, id: Id) { forall i :: k < i < |ops| ==> !Frees(ops[i], id) }

  ghost predicate PutAndKept(ops: seq<Op>, k: nat, id: Id) {
    k < |ops| && ops[k] == Put(id) && forall i :: k < i < |ops| ==> ops[i] != Delete(id)
  }

  // Put, and not deleted since.
  ghost predicate Listed(ops: seq<Op>, id: Id) { exists k: nat :: PutAndKept(ops, k, id) }

  ghost predicate Guards(ops: seq<Op>, k: nat, lease: nat, id: Id) { Won(ops, k, lease, id) && NotFreedSince(ops, k, id) }

  // Won by someone less than a lease ago, and not freed since.
  ghost predicate Guarded(ops: seq<Op>, id: Id, lease: nat) {
    exists k: nat :: Guards(ops, k, lease, id) && Elapsed(ops) <= When(ops, k) + lease
  }

  lemma WonSnoc(ops: seq<Op>, op: Op, k: nat, lease: nat, id: Id)
    requires k < |ops|
    ensures Won(ops + [op], k, lease, id) == Won(ops, k, lease, id) && When(ops + [op], k) == When(ops, k)
  {
    assert (ops + [op])[..k] == ops[..k];
  }

  lemma GuardsSnoc(ops: seq<Op>, op: Op, k: nat, lease: nat, id: Id)
    requires k < |ops|
    ensures Guards(ops + [op], k, lease, id) <==> Guards(ops, k, lease, id) && !Frees(op, id)
  {
    hide Won, Frees;
    WonSnoc(ops, op, k, lease, id);
    var all := ops + [op];
    if Guards(all, k, lease, id) {
      forall i | k < i < |ops| ensures !Frees(ops[i], id) { assert all[i] == ops[i]; }
      assert all[|ops|] == op;
    }
  }

  lemma ListedSnoc(ops: seq<Op>, op: Op, id: Id)
    ensures Listed(ops + [op], id) <==> op == Put(id) || (Listed(ops, id) && op != Delete(id))
  {
    var all := ops + [op];
    if op == Put(id) {
      assert PutAndKept(all, |ops|, id);
    } else if Listed(all, id) {
      var k: nat :| PutAndKept(all, k, id);
      assert PutAndKept(ops, k, id) by { forall i | k < i < |ops| ensures ops[i] != Delete(id) { assert all[i] == ops[i]; } }
      assert all[|ops|] == op;
    } else if Listed(ops, id) {
      var k: nat :| PutAndKept(ops, k, id);
      if op != Delete(id) { assert PutAndKept(all, k, id); }
    }
  }

  // What a row says, in terms of the history: it is there if listed, and it shows the last win that was not freed.
  ghost predicate RowTells(ops: seq<Op>, lease: nat, id: Id) {
    var rows := After(ops, lease);
    && (id in rows <==> Listed(ops, id))
    && (id in rows && rows[id].Some? ==> exists k: nat :: Guards(ops, k, lease, id) && When(ops, k) == rows[id].value.at)
    && (forall k: nat :: Guards(ops, k, lease, id) ==> id in rows && rows[id].Some? && When(ops, k) <= rows[id].value.at)
  }

  lemma {:induction false} Passes(ops: seq<Op>, k: nat)
    requires k <= |ops|
    ensures When(ops, k) <= Elapsed(ops)
  {
    if k < |ops| {
      Passes(ops[..|ops| - 1], k);
      assert ops[..|ops| - 1][..k] == ops[..k];
    } else {
      assert ops[..k] == ops;
    }
  }

  lemma AfterSnoc(ops: seq<Op>, op: Op, lease: nat)
    ensures After(ops + [op], lease) == Apply(After(ops, lease), op, Elapsed(ops), lease)
    ensures Elapsed(ops + [op]) == Elapsed(ops) + (if op.Clock? then op.ticks else 0)
  {
    assert (ops + [op])[..|ops|] == ops;
  }

  // The win that a row shows after one more operation.
  lemma ShownSnoc(ops: seq<Op>, op: Op, lease: nat, id: Id)
    requires RowTells(ops, lease, id)
    ensures var all := ops + [op]; var rows := After(all, lease);
            id in rows && rows[id].Some? ==> exists k: nat :: Guards(all, k, lease, id) && When(all, k) == rows[id].value.at
  {
    hide Listed, Won;
    AfterSnoc(ops, op, lease);
    var all, rows := ops + [op], After(ops + [op], lease);
    if id in rows && rows[id].Some? {
      if op.Try? && op.id == id && Claimable(After(ops, lease), id, Elapsed(ops), lease) {
        LastWon(ops, op, lease);
        assert Guards(all, |ops|, lease, id);
      } else {
        var k: nat :| Guards(ops, k, lease, id) && When(ops, k) == After(ops, lease)[id].value.at;
        InRange(ops, k, lease, id);
        GuardsSnoc(ops, op, k, lease, id);
        WonSnoc(ops, op, k, lease, id);
        assert Guards(all, k, lease, id) && When(all, k) == rows[id].value.at;
      }
    }
  }

  lemma InRange(ops: seq<Op>, k: nat, lease: nat, id: Id)
    requires Guards(ops, k, lease, id)
    ensures k < |ops|
  {
  }

  lemma LastWon(ops: seq<Op>, op: Op, lease: nat)
    requires op.Try?
    ensures Won(ops + [op], |ops|, lease, op.id) <==> Claimable(After(ops, lease), op.id, Elapsed(ops), lease)
    ensures (ops + [op])[..|ops|] == ops
  {
    assert (ops + [op])[..|ops|] == ops;
  }

  // Every win that was not freed shows, or a later one does.
  lemma GuardSnoc(ops: seq<Op>, op: Op, lease: nat, id: Id, k: nat)
    requires RowTells(ops, lease, id) && Guards(ops + [op], k, lease, id)
    ensures var all := ops + [op]; var rows := After(all, lease);
            id in rows && rows[id].Some? && When(all, k) <= rows[id].value.at
  {
    hide Listed;
    AfterSnoc(ops, op, lease);
    var all := ops + [op];
    if k < |ops| {
      GuardsSnoc(ops, op, k, lease, id);
      WonSnoc(ops, op, k, lease, id);
      Passes(ops, k);
    } else {
      LastWon(ops, op, lease);
    }
  }

  lemma {:induction false} RowsTell(ops: seq<Op>, lease: nat, id: Id)
    ensures RowTells(ops, lease, id)
  {
    hide Won, Frees, Apply;
    if ops == [] {
      NothingTold(lease, id);
    } else {
      var front, op := ops[..|ops| - 1], ops[|ops| - 1];
      RowsTell(front, lease, id);
      assert front + [op] == ops;
      ListedSnoc(front, op, id);
      InRowsSnoc(front, op, lease, id);
      ShownSnoc(front, op, lease, id);
      forall k: nat | Guards(ops, k, lease, id)
        ensures var rows := After(ops, lease); id in rows && rows[id].Some? && When(ops, k) <= rows[id].value.at
      {
        GuardSnoc(front, op, lease, id, k);
      }
    }
  }

  lemma NothingTold(lease: nat, id: Id)
    ensures RowTells([], lease, id)
  {
  }

  lemma InRowsSnoc(ops: seq<Op>, op: Op, lease: nat, id: Id)
    ensures id in After(ops + [op], lease) <==> op == Put(id) || (id in After(ops, lease) && op != Delete(id))
  {
    AfterSnoc(ops, op, lease);
  }

  // A claim succeeds exactly on a row that was put and not deleted since, and that nobody won less than a lease ago
  // without its having been freed since.
  lemma WinsIff(ops: seq<Op>, id: Id, lease: nat)
    ensures Claimable(After(ops, lease), id, Elapsed(ops), lease) <==> Listed(ops, id) && !Guarded(ops, id, lease)
  {
    hide Listed, Guards;
    RowsTell(ops, lease, id);
  }

  // Two successful claims of one id, by whomever, are more than a lease apart, or the row was put again, released or
  // deleted in between.
  lemma ClaimsApart(ops: seq<Op>, lease: nat, i: nat, j: nat, id: Id)
    requires i < j && Won(ops, i, lease, id) && Won(ops, j, lease, id)
    requires forall k :: i < k < j ==> !Frees(ops[k], id)
    ensures When(ops, j) > When(ops, i) + lease
  {
    var front := ops[..j];
    WinsIff(front, id, lease);
    assert front[..i] == ops[..i] && front[i] == ops[i];
    assert Won(front, i, lease, id) by { hide Claimable; }
    assert Guards(front, i, lease, id);
  }

  // ----- the table itself ---------------------------------------------------------------------------------------

  class Table {
    var now: nat
    var rows: Rows
    const lease: nat
    ghost var ops: seq<Op>

    ghost predicate Valid()
      reads this
    {
      rows == After(ops, lease) && now == Elapsed(ops)
    }

    constructor (lease: nat)
      ensures Valid() && ops == [] && this.lease == lease
    {
      this.lease := lease;
      now, rows, ops := 0, map[], [];
    }

    method Advance(ticks: nat)
      requires Valid()
      modifies this`now, this`ops
      ensures Valid() && ops == old(ops) + [Clock(ticks)]
    {
      hide After, Elapsed, Listed, Guarded, Won;
      AfterSnoc(ops, Clock(ticks), lease);
      now := now + ticks;
      ops := ops + [Clock(ticks)];
    }

    // Insert or reschedule: the record is up for claiming again, whoever had it.
    method PutRow(id: Id)
      requires Valid()
      modifies this`rows, this`ops
      ensures Valid() && ops == old(ops) + [Put(id)]
    {
      hide After, Elapsed, Listed, Guarded, Won;
      AfterSnoc(ops, Put(id), lease);
      rows := rows[id := None];
      ops := ops + [Put(id)];
    }

    // The conditional update.
    method TryClaim(id: Id, owner: Replica) returns (won: bool)
      requires Valid()
      modifies this`rows, this`ops
      ensures Valid() && ops == old(ops) + [Try(id, owner)]
      ensures won <==> Listed(old(ops), id) && !Guarded(old(ops), id, lease)
      ensures won <==> Won(ops, |old(ops)|, lease, id)
      ensures rows == if won then old(rows)[id := Some(Claim(owner, now))] else old(rows)
    {
      hide After, Elapsed, Listed, Guarded, Won;
      AfterSnoc(ops, Try(id, owner), lease);
      WinsIff(ops, id, lease);
      LastWon(ops, Try(id, owner), lease);
      won := id in rows && (rows[id].None? || rows[id].value.at + lease < now);
      if won { rows := rows[id := Some(Claim(owner, now))]; }
      ops := ops + [Try(id, owner)];
    }

    // Clears whatever claim there is; a missing row is not an error.
    method ReleaseClaim(id: Id)
      requires Valid()
      modifies this`rows, this`ops
      ensures Valid() && ops == old(ops) + [Release(id)]
      ensures rows == if id in old(rows) then old(rows)[id := None] else old(rows)
    {
      hide After, Elapsed, Listed, Guarded, Won;
      AfterSnoc(ops, Release(id), lease);
      if id in rows { rows := rows[id := None]; }
      ops := ops + [Release(id)];
    }

    method DeleteRow(id: Id)
      requires Valid()
      modifies this`rows, this`ops
      ensures Valid() && ops == old(ops) + [Delete(id)]
    {
      hide After, Elapsed, Listed, Guarded, Won;
      AfterSnoc(ops, Delete(id), lease);
      rows := rows - {id};
      ops := ops + [Delete(id)];
    }
  }
}
