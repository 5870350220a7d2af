/** How each relocation changes the sets of occupied rows and request ids. */
module LedgerMoves {
  import opened Ledger

  function After(m: Logical, mv: Move): Logical {
    m.(place := Relocated(m.place, mv))
  }

  lemma MovedMembers(msgs: seq<Logical>, mv: Move)
    ensures forall m :: m in msgs ==> After(m, mv) in Moved(msgs, mv)
    ensures forall m' :: m' in Moved(msgs, mv) ==> exists m :: m in msgs && m' == After(m, mv)
  {
    var moved := Moved(msgs, mv);
    forall m | m in msgs
      ensures After(m, mv) in moved
    {
      var i :| 0 <= i < |msgs| && msgs[i] == m;
      assert moved[i] == After(m, mv);
    }
    forall m' | m' in moved
      ensures exists m :: m in msgs && m' == After(m, mv)
    {
      var i :| 0 <= i < |moved| && moved[i] == m';
      assert msgs[i] in msgs;
    }
  }

  lemma DepartMoves(msgs: seq<Logical>, row: nat, id: Base.u64, wire: Wire)
    requires Apart(msgs) && row in RowsIn(msgs) && id !in RequestsIn(msgs)
    ensures var moved := Moved(msgs, Depart(row, id, wire));
      Apart(moved) && RowsIn(moved) == RowsIn(msgs) - {row} && RequestsIn(moved) == RequestsIn(msgs) + {id}
  {
    MovedMembers(msgs, Depart(row, id, wire));
  }

  lemma SettleMoves(msgs: seq<Logical>, id: Base.u64)
    requires Apart(msgs)
    ensures var moved := Moved(msgs, Settle(id));
      Apart(moved) && RowsIn(moved) == RowsIn(msgs) && RequestsIn(moved) == RequestsIn(msgs) - {id}
  {
    MovedMembers(msgs, Settle(id));
  }

  lemma ResendMoves(msgs: seq<Logical>, id: Base.u64, newId: Base.u64)
    requires Apart(msgs) && id in RequestsIn(msgs) && newId !in RequestsIn(msgs)
    ensures var moved := Moved(msgs, Resend(id, newId));
      Apart(moved) && RowsIn(moved) == RowsIn(msgs) && RequestsIn(moved) == RequestsIn(msgs) - {id} + {newId}
  {
    MovedMembers(msgs, Resend(id, newId));
  }

  lemma ReturnMoves(msgs: seq<Logical>, id: Base.u64, row: nat)
    requires Apart(msgs) && id in RequestsIn(msgs) && row !in RowsIn(msgs)
    ensures var moved := Moved(msgs, Return(id, row));
      Apart(moved) && RowsIn(moved) == RowsIn(msgs) + {row} && RequestsIn(moved) == RequestsIn(msgs) - {id}
  {
    MovedMembers(msgs, Return(id, row));
  }

  lemma PurgeMoves(msgs: seq<Logical>, rows: set<nat>, at: int)
    requires Apart(msgs)
    ensures var moved := Moved(msgs, Purge(rows, at));
      Apart(moved) && RowsIn(moved) == RowsIn(msgs) - rows && RequestsIn(moved) == RequestsIn(msgs)
  {
    MovedMembers(msgs, Purge(rows, at));
  }

  lemma LoseMoves(msgs: seq<Logical>)
    requires Apart(msgs) && NoneLost(msgs)
    ensures var moved := Moved(msgs, Lose);
      Apart(moved) && RowsIn(moved) == RowsIn(msgs) && RequestsIn(moved) == {} && LostIn(moved) == RequestsIn(msgs)
  {
    MovedMembers(msgs, Lose);
  }

  lemma RegainMoves(msgs: seq<Logical>, id: Base.u64, newId: Base.u64)
    requires Apart(msgs) && id in LostIn(msgs) && newId !in RequestsIn(msgs)
    ensures var moved := Moved(msgs, Regain(id, newId));
      && Apart(moved) && RowsIn(moved) == RowsIn(msgs)
      && RequestsIn(moved) == RequestsIn(msgs) + {newId} && LostIn(moved) == LostIn(msgs) - {id}
  {
    MovedMembers(msgs, Regain(id, newId));
  }

  lemma BuryMoves(msgs: seq<Logical>, at: int)
    requires Apart(msgs)
    ensures var moved := Moved(msgs, Bury(at));
      Apart(moved) && RowsIn(moved) == RowsIn(msgs) && RequestsIn(moved) == RequestsIn(msgs) && NoneLost(moved)
  {
    MovedMembers(msgs, Bury(at));
  }
}
