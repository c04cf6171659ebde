/** `GET /api/orders/stats`: counts and amount sums per status over the rows
    of `SELECT status, amount FROM orders WHERE user_id = ?`. */
module StatsRoute {
  import opened Base
  import opened Seqs
  import opened Schema
  import opened AuthLib
  import opened Http

  /** `.reduce((sum, order) => sum + parseFloat(order.amount), 0)` on cents. */
  function SumAmounts(rows: seq<OrderRow>): int
  {
    if rows == [] then 0 else rows[0].amount + SumAmounts(rows[1..])
  }

  /** The seven statistics of one user's rows. */
  function ComputeStats(rows: seq<OrderRow>, uid: string): (s: Stats)
    ensures s.total == |Owned(rows, uid)|
    ensures s.pending <= s.total && s.completed <= s.total && s.settled <= s.total
    ensures Owned(rows, uid) == [] ==> s == Stats(0, 0, 0, 0, 0, 0, 0)
  {
    var mine := Owned(rows, uid);
    var pending := Filter(mine, HasStatus(Placed));
    var completed := Filter(mine, HasStatus(Completed));
    var settled := Filter(mine, HasStatus(Settled));
    Stats(|mine|, |pending|, |completed|, |settled|,
          SumAmounts(pending), SumAmounts(completed), SumAmounts(settled))
  }

  /** The handler: 401 without a session, whatever the table holds. */
  function GetStats(session: Option<Claims>, rows: seq<OrderRow>): (r: Reply)
    ensures session.None? ==> r == Unauthenticated
    ensures r.status == 200 <==> session.Some?
    ensures session.Some? ==> r.body == StatsBody(ComputeStats(rows, session.value.userId))
  {
    if session.None? then Unauthenticated
    else Json(StatsBody(ComputeStats(rows, session.value.userId)))
  }

  // ---- an independent reference: one pass over the whole table ---------------

  /** The number of rows of the whole table owned by `uid` with status `s`. */
  function CountWhere(rows: seq<OrderRow>, uid: string, s: string): nat
  {
    if rows == [] then 0
    else (if rows[0].userId == uid && rows[0].status == s then 1 else 0) + CountWhere(rows[1..], uid, s)
  }

  /** The sum of `amount` over the rows of the whole table owned by `uid` with status `s`. */
  function SumWhere(rows: seq<OrderRow>, uid: string, s: string): int
  {
    if rows == [] then 0
    else (if rows[0].userId == uid && rows[0].status == s then rows[0].amount else 0) + SumWhere(rows[1..], uid, s)
  }

  lemma {:induction false} OwnedStatusMatchesReference(rows: seq<OrderRow>, uid: string, s: string)
    ensures |Filter(Owned(rows, uid), HasStatus(s))| == CountWhere(rows, uid, s)
    ensures SumAmounts(Filter(Owned(rows, uid), HasStatus(s))) == SumWhere(rows, uid, s)
  {
    if rows != [] {
      OwnedStatusMatchesReference(rows[1..], uid, s);
      if rows[0].userId == uid {
        assert Owned(rows, uid) == [rows[0]] + Owned(rows[1..], uid);
      } else {
        assert Owned(rows, uid) == Owned(rows[1..], uid);
      }
    }
  }

  /** Each count and sum is taken over exactly the caller's rows with that status. */
  lemma StatsMatchReference(rows: seq<OrderRow>, uid: string)
    ensures var st := ComputeStats(rows, uid);
      && st.pending == CountWhere(rows, uid, Placed) && st.pendingAmount == SumWhere(rows, uid, Placed)
      && st.completed == CountWhere(rows, uid, Completed) && st.completedAmount == SumWhere(rows, uid, Completed)
      && st.settled == CountWhere(rows, uid, Settled) && st.settledAmount == SumWhere(rows, uid, Settled)
  {
    OwnedStatusMatchesReference(rows, uid, Placed);
    OwnedStatusMatchesReference(rows, uid, Completed);
    OwnedStatusMatchesReference(rows, uid, Settled);
  }

  // ---- the three statuses partition the rows -----------------------------------

  lemma {:induction false} StatusPartition(rows: seq<OrderRow>)
    requires forall r :: r in rows ==> InEnum(r.status)
    ensures |Filter(rows, HasStatus(Placed))| + |Filter(rows, HasStatus(Completed))|
            + |Filter(rows, HasStatus(Settled))| == |rows|
    ensures SumAmounts(Filter(rows, HasStatus(Placed))) + SumAmounts(Filter(rows, HasStatus(Completed)))
            + SumAmounts(Filter(rows, HasStatus(Settled))) == SumAmounts(rows)
  {
    if rows != [] {
      assert rows[0] in rows;
      StatusPartition(rows[1..]);
    }
  }

  /** With every status in the ENUM, the three counts add up to the total and
      the three sums to the sum over all the caller's rows. */
  lemma StatsAddUp(rows: seq<OrderRow>, uid: string)
    requires forall r :: r in rows && r.userId == uid ==> InEnum(r.status)
    ensures var st := ComputeStats(rows, uid);
      && st.pending + st.completed + st.settled == st.total
      && st.pendingAmount + st.completedAmount + st.settledAmount == SumAmounts(Owned(rows, uid))
  {
    StatusPartition(Owned(rows, uid));
  }

  // ---- isolation between users ---------------------------------------------------

  /** A row of another user, wherever it sits in the table, changes nothing. */
  lemma OtherUsersRowsDoNotCount(before: seq<OrderRow>, row: OrderRow, after: seq<OrderRow>, uid: string)
    requires row.userId != uid
    ensures ComputeStats(before + [row] + after, uid) == ComputeStats(before + after, uid)
  {
    var p := OwnedBy(uid);
    calc {
      Filter(before + [row] + after, p);
      { FilterAppend(before + [row], after, p); }
      Filter(before + [row], p) + Filter(after, p);
      { FilterAppend(before, [row], p); }
      Filter(before, p) + Filter([row], p) + Filter(after, p);
      { assert Filter([row], p) == []; }
      Filter(before, p) + Filter(after, p);
      { FilterAppend(before, after, p); }
      Filter(before + after, p);
    }
  }

  lemma {:induction false} SumAmountsAppend(a: seq<OrderRow>, b: seq<OrderRow>)
    ensures SumAmounts(a + b) == SumAmounts(a) + SumAmounts(b)
  {
    if a == [] {
      assert a + b == b;
    } else {
      assert (a + b)[1..] == a[1..] + b;
      SumAmountsAppend(a[1..], b);
    }
  }

  /** A new row of the caller adds one to the total and moves exactly the
      bucket of its own status: the effect of a successful `POST /api/orders`. */
  lemma StatsAfterInsert(rows: seq<OrderRow>, row: OrderRow, uid: string)
    requires row.userId == uid
    ensures var st, st' := ComputeStats(rows, uid), ComputeStats(rows + [row], uid);
      && st'.total == st.total + 1
      && st'.pending == st.pending + (if row.status == Placed then 1 else 0)
      && st'.completed == st.completed + (if row.status == Completed then 1 else 0)
      && st'.settled == st.settled + (if row.status == Settled then 1 else 0)
      && st'.pendingAmount == st.pendingAmount + (if row.status == Placed then row.amount else 0)
      && st'.completedAmount == st.completedAmount + (if row.status == Completed then row.amount else 0)
      && st'.settledAmount == st.settledAmount + (if row.status == Settled then row.amount else 0)
  {
    var mine := Owned(rows, uid);
    FilterAppend(rows, [row], OwnedBy(uid));
    assert Owned(rows + [row], uid) == mine + [row];
    forall s | s in [Placed, Completed, Settled]
      ensures Filter(mine + [row], HasStatus(s)) == Filter(mine, HasStatus(s)) + Filter([row], HasStatus(s))
      ensures SumAmounts(Filter(mine + [row], HasStatus(s)))
           == SumAmounts(Filter(mine, HasStatus(s))) + (if row.status == s then row.amount else 0)
    {
      FilterAppend(mine, [row], HasStatus(s));
      SumAmountsAppend(Filter(mine, HasStatus(s)), Filter([row], HasStatus(s)));
    }
  }
}
