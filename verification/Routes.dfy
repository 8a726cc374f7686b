/** Routes of a private network (hcloud/routes.go). */
module Routes {
  import opened Wrappers

  /** Destination CIDR to gateway IP; the backend holds one route per destination. */
  type Table = map<string, string>

  /** How a mutating call ended: carried out, refused as locked or conflicting, or failed with the change
      applied or not (the request may fail, or waiting for its action may). */
  datatype Outcome = Accepted | Conflict | Failed(applied: bool) {
    predicate Applied() { Accepted? || (Failed? && applied) }
  }

  datatype Error = Unreachable | RouteConflict | CallFailed

  /** The network resource at the backend. */
  class NetworkApi {
    var routes: Table
    const readable: bool  // do reading calls succeed?
    var calls: nat        // mutating calls received
    var refused: nat      // those not carried out, or not to their end

    constructor (routes: Table, readable: bool)
      ensures this.routes == routes && this.readable == readable && calls == 0 && refused == 0
    {
      this.routes := routes;
      this.readable := readable;
      calls, refused := 0, 0;
    }

    method GetRoutes() returns (r: Option<Table>)
      ensures r.Some? ==> r.value == routes
      ensures readable ==> r.Some?
    {
      var answers: bool := *;
      r := if answers || readable then Some(routes) else None;
    }

    method DeleteRoute(destination: string) returns (o: Outcome)
      modifies this
      ensures calls == old(calls) + 1
      ensures refused == old(refused) + if o.Accepted? then 0 else 1
      ensures routes == if o.Applied() then old(routes) - {destination} else old(routes)
    {
      o := *;
      calls := calls + 1;
      refused := refused + if o.Accepted? then 0 else 1;
      if o.Applied() { routes := routes - {destination}; }
    }

    /** A second route for a destination is refused. */
    method AddRoute(destination: string, gateway: string) returns (o: Outcome)
      modifies this
      ensures calls == old(calls) + 1
      ensures refused == old(refused) + if o.Accepted? then 0 else 1
      ensures routes == if o.Applied() then old(routes)[destination := gateway] else old(routes)
      ensures destination in old(routes) ==> !o.Applied()
    {
      o := *;
      calls := calls + 1;
      if destination in routes && o.Applied() { o := Failed(false); }
      refused := refused + if o.Accepted? then 0 else 1;
      if o.Applied() { routes := routes[destination := gateway]; }
    }
  }

  /** What an attempt to route `destination` over `gateway` may leave behind when it fails: the table
      as it was, the table without a stale route, or the final table. */
  predicate LeftBehind(before: Table, destination: string, gateway: string, after: Table) {
    || after == before
    || (destination in before && before[destination] != gateway && after == before - {destination})
    || after == before[destination := gateway]
  }

  datatype ListedRoute = ListedRoute(destination: string, gateway: string, target: Option<string>)

  /** A server's name and its IP in the network. */
  datatype Attachment = Attachment(server: string, ip: string)

  class Routes {
    const api: NetworkApi
    var network: Table  // the copy read last

    constructor (api: NetworkApi)
      ensures this.api == api && network == api.routes
    {
      this.api := api;
      network := api.routes;
    }

    method ReloadNetwork() returns (ok: bool)
      modifies this`network
      ensures ok ==> network == api.routes
      ensures api.readable ==> ok
      ensures !ok ==> network == old(network)
    {
      var r := api.GetRoutes();
      ok := r.Some?;
      if ok { network := r.value; }
    }

    method UpsertRoute(gateway: string, destination: string) returns (r: Result<(), Error>)
      modifies this`network, api
      ensures r.Ok? ==> api.routes == old(api.routes)[destination := gateway]
      ensures r.Err? && api.readable ==> api.refused == old(api.refused) + 1
      ensures LeftBehind(old(api.routes), destination, gateway, api.routes)
      ensures destination in old(api.routes) && old(api.routes)[destination] == gateway ==>
                api.calls == old(api.calls) && api.routes == old(api.routes) && (r.Err? ==> r.error == Unreachable)
      ensures api.calls <= old(api.calls) + 2
      ensures destination !in old(api.routes) ==> api.calls <= old(api.calls) + 1
    {
      var ok := ReloadNetwork();
      if !ok { return Err(Unreachable); }
      if destination in network {
        if network[destination] == gateway {
          assert api.routes[destination := gateway] == api.routes;
          return Ok(());
        }
        var deleted := api.DeleteRoute(destination);
        if !deleted.Accepted? { return Err(CallFailed); }
      }
      assert api.routes[destination := gateway] == old(api.routes)[destination := gateway];
      var added := api.AddRoute(destination, gateway);
      match added {
        case Accepted => return Ok(());
        case Conflict => return Err(RouteConflict);
        case Failed(_) => return Err(CallFailed);
      }
    }

    /** One entry per route of the network; it names the last listed server that owns the gateway IP, and
        no server exactly when none owns it. */
    method ListRoutes(servers: seq<Attachment>) returns (r: Option<map<string, ListedRoute>>)
      modifies this`network
      ensures api.readable ==> r.Some?
      ensures r.Some? ==> r.value.Keys == api.routes.Keys
      ensures r.Some? ==> forall d :: d in r.value ==>
                && r.value[d].destination == d && r.value[d].gateway == api.routes[d]
                && r.value[d].target == Owner(servers, api.routes[d])
                && forall n :: r.value[d].target == Some(n) <==> Owns(servers, n, api.routes[d])
    {
      var ok := ReloadNetwork();
      if !ok { return None; }
      var byIP: map<string, string> := map[];
      for i := 0 to |servers|
        invariant forall ip :: Owner(servers[..i], ip) == if ip in byIP then Some(byIP[ip]) else None
      {
        byIP := byIP[servers[i].ip := servers[i].server];
        assert servers[..i + 1][..i] == servers[..i];
      }
      assert servers[..|servers|] == servers;
      var todo := network.Keys;
      var listed: map<string, ListedRoute> := map[];
      while todo != {}
        invariant todo <= network.Keys && listed.Keys == network.Keys - todo
        invariant forall d :: d in listed ==> listed[d] == ListedRoute(d, network[d], Owner(servers, network[d]))
      {
        var d :| d in todo;
        var gateway := network[d];
        listed := listed[d := ListedRoute(d, gateway, if gateway in byIP then Some(byIP[gateway]) else None)];
        todo := todo - {d};
      }
      forall d, n | d in listed ensures listed[d].target == Some(n) <==> Owns(servers, n, network[d]) {
        OwnerOwns(servers, n, network[d]);
      }
      r := Some(listed);
    }
  }

  /** Of the servers with this IP, the one listed last has this name. */
  predicate Owns(servers: seq<Attachment>, name: string, ip: string) {
    exists i :: && 0 <= i < |servers| && servers[i] == Attachment(name, ip)
                && forall j :: i < j < |servers| ==> servers[j].ip != ip
  }

  lemma {:induction false} OwnerOwns(servers: seq<Attachment>, name: string, ip: string)
    ensures Owner(servers, ip) == Some(name) <==> Owns(servers, name, ip)
  {
    if |servers| > 0 && servers[|servers| - 1].ip != ip {
      var n := |servers| - 1;
      OwnerOwns(servers[..n], name, ip);
      if i :| && 0 <= i < n && servers[..n][i] == Attachment(name, ip)
              && forall j :: i < j < n ==> servers[..n][j].ip != ip
      {
        assert servers[i] == Attachment(name, ip);
        forall j | i < j < |servers| ensures servers[j].ip != ip {
          if j < n { assert servers[j] == servers[..n][j]; }
        }
      }
      if i :| && 0 <= i < |servers| && servers[i] == Attachment(name, ip)
              && forall j :: i < j < |servers| ==> servers[j].ip != ip
      {
        assert servers[..n][i] == servers[i];
        assert forall j :: i < j < n ==> servers[..n][j].ip == servers[j].ip;
      }
    }
  }

  /** The server listed last under an IP. */
  function Owner(servers: seq<Attachment>, ip: string): Option<string> {
    if |servers| == 0 then None
    else if servers[|servers| - 1].ip == ip then Some(servers[|servers| - 1].server)
    else Owner(servers[..|servers| - 1], ip)
  }

  /** A gateway is a blackhole exactly when no listed server owns it. */
  lemma {:induction false} BlackholeExactlyWhenUnowned(servers: seq<Attachment>, ip: string)
    ensures Owner(servers, ip) == None <==> forall i :: 0 <= i < |servers| ==> servers[i].ip != ip
  {
    if |servers| > 0 {
      BlackholeExactlyWhenUnowned(servers[..|servers| - 1], ip);
    }
  }

  /** tables[0], tables[1], ... are the tables before and after each of a series of failed attempts. */
  predicate FailedAttempts(tables: seq<Table>, destination: string, gateway: string) {
    |tables| > 0 &&
    forall i :: 0 <= i < |tables| - 1 ==> LeftBehind(tables[i], destination, gateway, tables[i + 1])
  }

  /** However many attempts fail, and wherever, no other destination is touched and the attempt that
      succeeds ends in the table an immediate success would have produced. */
  lemma {:induction false} RetriesConverge(tables: seq<Table>, destination: string, gateway: string)
    requires FailedAttempts(tables, destination, gateway)
    ensures tables[|tables| - 1] - {destination} == tables[0] - {destination}
    ensures tables[|tables| - 1][destination := gateway] == tables[0][destination := gateway]
  {
    var n := |tables| - 1;
    if n > 0 {
      RetriesConverge(tables[..n], destination, gateway);
      var before, after := tables[n - 1], tables[n];
      assert LeftBehind(before, destination, gateway, after);
      assert before[destination := gateway] - {destination} == before - {destination};
      assert (before - {destination})[destination := gateway] == before[destination := gateway];
    }
  }
}
