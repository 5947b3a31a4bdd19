/** How a cap's consumption moves when the book or the clock moves. */
module Consuming {
  import opened Common
  import opened Ledger
  import opened Replaying

  lemma {:induction false} SharesCongruence(b: Book, b': Book, ids: seq<string>, lim: Limit, now: int)
    requires forall id | id in ids :: Share(b, id, lim, now) == Share(b', id, lim, now)
    ensures Shares(b, ids, lim, now) == Shares(b', ids, lim, now)
  {
    if ids != [] {
      SharesCongruence(b, b', ids[..|ids| - 1], lim, now);
    }
  }

  /** Changing what one id contributes changes a sum by exactly that difference. */
  lemma {:induction false} SharesOneChanged(b: Book, b': Book, ids: seq<string>, id: string, lim: Limit, now: int)
    requires Distinct(ids)
    requires forall x | x in ids && x != id :: Share(b, x, lim, now) == Share(b', x, lim, now)
    ensures if id in ids
            then Shares(b', ids, lim, now) + Share(b, id, lim, now)
                 == Shares(b, ids, lim, now) + Share(b', id, lim, now)
            else Shares(b', ids, lim, now) == Shares(b, ids, lim, now)
  {
    if ids != [] {
      var init, last := ids[..|ids| - 1], ids[|ids| - 1];
      assert ids == init + [last];
      if last == id {
        SharesCongruence(b, b', init, lim, now);
      } else {
        SharesOneChanged(b, b', init, id, lim, now);
      }
    }
  }

  lemma SharesSnoc(b: Book, ids: seq<string>, id: string, lim: Limit, now: int)
    ensures Shares(b, ids + [id], lim, now) == Shares(b, ids, lim, now) + Share(b, id, lim, now)
  {
    SnocInit(ids, id);
  }

  /** A share depends only on what the book says about that id. */
  lemma ShareOfView(b: Book, b': Book, id: string, lim: Limit, now: int)
    requires ViewOf(b, id) == ViewOf(b', id)
    ensures Share(b, id, lim, now) == Share(b', id, lim, now)
  {
  }

  lemma AddedShare(b: Book, r: Reservation, id: string, lim: Limit, now: int)
    ensures Share(AddReservation(b, r), id, lim, now) ==
            if id != r.id then Share(b, id, lim, now)
            else if lim.Matches(r.scope) then Number(r.declared) else 0
  {
    AddedView(b, r, id);
    if id != r.id { ShareOfView(b, AddReservation(b, r), id, lim, now); }
  }

  lemma AddedShares(b: Book, r: Reservation, lim: Limit, now: int)
    requires b.Coherent()
    ensures Shares(AddReservation(b, r), AddReservation(b, r).order, lim, now) + Share(b, r.id, lim, now) ==
            Shares(b, b.order, lim, now) + (if lim.Matches(r.scope) then Number(r.declared) else 0)
  {
    var b' := AddReservation(b, r);
    forall x ensures Share(b', x, lim, now) ==
                     if x != r.id then Share(b, x, lim, now)
                     else if lim.Matches(r.scope) then Number(r.declared) else 0 {
      AddedShare(b, r, x, lim, now);
    }
    SharesOneChanged(b, b', b.order, r.id, lim, now);
    if r.id !in b.order { SharesSnoc(b', b.order, r.id, lim, now); }
  }

  /** A new reservation replaces whatever its id used before by its declared allowance. */
  lemma ConsumptionAfterReserve(b: Book, r: Reservation, lim: Limit, now: int)
    requires b.Coherent()
    ensures Consumption(AddReservation(b, r), lim, now) + Share(b, r.id, lim, now) ==
            Consumption(b, lim, now) + (if lim.Matches(r.scope) then Number(r.declared) else 0)
  {
    AddedShares(b, r, lim, now);
  }

  /** Closing a live reservation replaces its declared allowance by what it was charged. */
  lemma ConsumptionAfterClose(b: Book, t: Terminal, lim: Limit, now: int)
    requires b.Coherent() && b.Live(t.id)
    ensures Consumption(AddTerminal(b, t), lim, now) + Share(b, t.id, lim, now) ==
            Consumption(b, lim, now) + Share(AddTerminal(b, t), t.id, lim, now)
    ensures Share(b, t.id, lim, now) ==
            if lim.Matches(b.reserved[t.id].scope) then Number(b.reserved[t.id].declared) else 0
  {
    SharesOneChanged(b, AddTerminal(b, t), b.order, t.id, lim, now);
  }

  /** Time only lets charges fall out of a window. */
  lemma {:induction false} SharesShrink(b: Book, ids: seq<string>, lim: Limit, now: int, later: int)
    requires now <= later
    ensures Shares(b, ids, lim, later) <= Shares(b, ids, lim, now)
  {
    if ids != [] {
      SharesShrink(b, ids[..|ids| - 1], lim, now, later);
    }
  }

  lemma ConsumptionShrinks(b: Book, lim: Limit, now: int, later: int)
    requires now <= later
    ensures Consumption(b, lim, later) <= Consumption(b, lim, now)
  {
    SharesShrink(b, b.order, lim, now, later);
  }
}
