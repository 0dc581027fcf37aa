/** The control-panel handlers on the tables: plan limits, then the account operations. What a
    handler leaves behind is what Panel says of the request. */
module Handlers {
  import opened Text
  import opened Schema
  import opened Database
  import S = Store
  import P = Panel

  // ---------------------------------------------------------------- plan limits

  method AllowsDomain(t: Tables, me: int, plan: P.Plan) returns (ok: bool)
    ensures ok == P.MayAddDomain(t.View(), me, plan)
  {
    if plan.Subscription? {
      return true;
    }
    var counted := set i | i in t.domains && t.domains[i].account == me && t.domains[i].live;
    assert counted == P.OwnDomains(t.View(), me);
    if |counted| >= P.DOMAIN_LIMIT {
      return false;
    }
    return true;
  }

  method AllowsDestination(t: Tables, me: int, plan: P.Plan) returns (ok: bool)
    ensures ok == P.MayAddDestination(t.View(), me, plan)
  {
    if plan.Subscription? {
      return true;
    }
    var counted := set i | i in t.destinations && t.destinations[i].account == me && t.destinations[i].live;
    assert counted == P.OwnDestinations(t.View(), me);
    if |counted| >= P.DESTINATION_LIMIT {
      return false;
    }
    return true;
  }

  method AllowsAlias(t: Tables, me: int, plan: P.Plan) returns (ok: bool)
    ensures ok == P.MayAddAlias(t.View(), me, plan)
  {
    if plan.Subscription? {
      return true;
    }
    var counted := set i | i in t.aliases && t.aliases[i].account == me && t.aliases[i].live;
    assert counted == P.OwnAliases(t.View(), me);
    if |counted| >= P.ALIAS_LIMIT {
      return false;
    }
    return true;
  }

  // ---------------------------------------------------------------- handlers

  /** The two forms of the dashboard. A domain that the plan does not allow is passed over. */
  method PostDashboard(t: Tables, me: int, plan: P.Plan, domain: string, code: string, n: S.NewDomain,
                       address: string, valid: bool, serial: int) returns (error: Option<S.SqlError>)
    requires Constraints(t.View()) && S.FreshFor(t.View(), n) && serial !in t.destinations
    modifies t
    ensures var r := P.Dashboard(domain, code, n, address, valid, serial);
            P.Possible(old(t.View()), r) && t.Did(P.Serve(old(t.View()), me, plan, r, 0), old(t.View()), error)
  {
    hide S.CreateDomain, S.FreshFor, S.CreateDestination, P.MayAddDomain, P.MayAddDestination, UniqueNames, UniqueRules,
      UniqueAddresses, OneLiveKey, Numbered;
    if |domain| > 0 {
      var allowed := AllowsDomain(t, me, plan);
      if allowed {
        error := t.CreateDomain(me, domain, code, n);
        return;
      }
    }
    if |address| > 0 {
      var formErrors := !valid;
      var allowed := AllowsDestination(t, me, plan);
      if !allowed {
        formErrors := true;
      }
      if !formErrors {
        t.CreateDestination(me, Lower(address), serial);
      }
    }
    return None;
  }

  method RemoveDomain(t: Tables, me: int, name: string) returns (error: Option<S.SqlError>)
    requires Constraints(t.View())
    modifies t
    ensures t.Did(P.Serve(old(t.View()), me, P.Free, P.RemoveDomain(name), 0), old(t.View()), error)
  {
    hide S.DeleteDomain, UniqueNames;
    var found := t.SelectDomain(name);
    if found.None? || !S.SeesDomain(t.View(), me, found.value) {
      return Some(S.NoRows);
    }
    t.DeleteDomain(me, found.value);
    return None;
  }

  /** Any request, to its end: committed, or rolled back on an error. */
  method Serve(t: Tables, me: int, plan: P.Plan, r: P.Request, now: int) returns (error: Option<S.SqlError>)
    requires Constraints(t.View()) && P.Possible(t.View(), r)
    modifies t
    ensures t.View() == P.Handle(old(t.View()), me, plan, r, now)
    ensures error.None? <==> P.Serve(old(t.View()), me, plan, r, now).Ok?
  {
    hide S.CreateDomain, S.FreshFor, S.CreateDestination, S.DeleteDomain, S.DomainPage, S.AttachDestination,
      S.DeleteLink, S.DeleteAlias, S.DeleteDestination, P.MayAddDomain, P.MayAddDestination, P.MayAddAlias,
      UniqueNames, UniqueRules, UniqueAddresses, OneLiveKey, Numbered, FindDomain;
    match r
    case Dashboard(domain, code, n, address, valid, serial) =>
      error := PostDashboard(t, me, plan, domain, code, n, address, valid, serial);
    case ViewDomain(q) =>
      var allowed := AllowsAlias(t, me, plan);
      error := t.ViewDomain(me, allowed, q, now);
    case RemoveDomain(name) => error := RemoveDomain(t, me, name);
    case RemoveAlias(alias) => error := t.DeleteAlias(me, alias);
    case RemoveLink(alias, destination) => error := t.DeleteLink(me, alias, destination);
    case Attach(alias, destination) => error := t.AttachDestination(me, alias, destination);
    case RemoveDestination(destination) => error := t.DeleteDestination(me, destination);
  }
}
