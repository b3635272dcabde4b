/** The reconcile loop: count keys on all sides, compare uptimes, and run a restore pass on drift. */
module DriftLoop {
  import opened Common
  import opened ClientKeys
  import opened KeyRestore
  import opened RestorePass
  import opened DriftCheck
  import GatewayUptime
  import opened AdminState

  class ReconcileLoop {
    const app: AppState
    var prevUptime: Option<nat>

    constructor (a: AppState)
      ensures app == a && prevUptime == None
    {
      app, prevUptime := a, None;
    }

    /** One tick; `ran` says whether it ran a pass, over the network `net`. */
    method ReconcileOnce(r: Reading, targets: set<string>, net: Network) returns (ran: bool)
      requires WellKeyed(app.pgKeys)
      modifies this, app
      ensures WellKeyed(app.pgKeys) && prevUptime == LastUptime(old(prevUptime), [r])
      ensures ran <==> Alarmed(old(app.Replicas()), old(prevUptime), r)
      ensures !ran ==> app.Replicas() == old(app.Replicas())
      ensures ran && GatewayUp(net) && net.load && old(app.pgKeys) != map[] && GatewayWellFormed(old(app.gatewayKeys))
              && AllAcceptable(old(app.pgKeys), old(app.gatewayKeys)) ==>
                InAgreement(app.keysMeta, app.gatewayKeys) &&
                (SharedIdsKnown(old(app.pgKeys), old(app.gatewayKeys)) ==>
                   TokensWithin(old(app.pgKeys), app.gatewayKeys.Keys))
    {
      assert [r][..0] == [];
      if !r.ready {
        return false;
      }
      var restarted := GatewayUptime.RestartDetected(prevUptime, r.uptime);
      prevUptime := r.uptime;
      if !r.counted {
        return false;
      }
      var onGateway := |app.gatewayKeys|;
      var held, stored := |TokenEntries(app.keysMeta)|, |TrimmedRows(app.pgKeys)|;
      if !NeedsReconcile(Max(held, stored), onGateway, restarted) {
        return false;
      }
      var restored, loaded;
      ghost var rows, h, order, outs, world;
      restored, loaded, rows, h, order, outs, world := app.RestoreControlPlane(targets, net);
      return true;
    }
  }
}
