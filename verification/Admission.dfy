/** When a reserve is admitted: exactly when the launch fits under every matching cap. */
module Admission {
  import opened Common
  import opened Ledger
  import opened Operations

  lemma {:induction false} ItemsAt(b: Book, limits: seq<Limit>, n: nat, scope: Scope, declared: nat, now: int)
    requires n <= |limits|
    ensures forall i | 0 <= i < n && limits[i].Matches(scope) ::
              ItemFor(b, limits, i, declared, now) in Items(b, limits, n, scope, declared, now)
    ensures forall item | item in Items(b, limits, n, scope, declared, now) ::
              && item.index < n && limits[item.index].Matches(scope)
              && item == ItemFor(b, limits, item.index, declared, now)
  {
    if n > 0 {
      ItemsAt(b, limits, n - 1, scope, declared, now);
    }
  }

  /** The launch fits under every configured cap that matches its scope. */
  ghost predicate Room(cfg: Config, b: Book, req: Request, now: int) {
    forall lim | lim in cfg.limits && lim.Matches(req.scope) ::
      Consumption(b, lim, now) + DeclaredFor(cfg.declared, req.scope.phase, cfg.defaultDeclared) <= lim.cap
  }

  lemma BindingEmpty(items: seq<Item>)
    ensures Filter(items, (i: Item) => Binds(i)) == [] <==> forall i | i in items :: !Binds(i)
  {
    FilterMembers(items, (i: Item) => Binds(i));
    var binding := Filter(items, (i: Item) => Binds(i));
    if binding != [] { assert binding[0] in binding; }
  }

  /** A reserve of an id that is not live is admitted exactly when there is room under every matching cap. */
  lemma AdmissionExact(cfg: Config, b: Book, req: Request, now: int, at: Stamps)
    requires !b.Live(req.id)
    ensures PlanReserve(cfg, b, req, now, at).reply.Admitted? <==> Room(cfg, b, req, now)
  {
    var declared := DeclaredFor(cfg.declared, req.scope.phase, cfg.defaultDeclared);
    var items := Matching(cfg, b, req, now);
    ItemsAt(b, cfg.limits, |cfg.limits|, req.scope, declared, now);
    BindingEmpty(items);
    if forall i | i in items :: !Binds(i) {
      forall lim | lim in cfg.limits && lim.Matches(req.scope)
        ensures Consumption(b, lim, now) + declared <= lim.cap
      {
        var i :| 0 <= i < |cfg.limits| && cfg.limits[i] == lim;
        assert !Binds(ItemFor(b, cfg.limits, i, declared, now));
      }
    } else {
      var item :| item in items && Binds(item);
      var lim := cfg.limits[item.index];
      assert lim in cfg.limits && lim.Matches(req.scope) && Consumption(b, lim, now) + declared > lim.cap;
    }
  }
}
