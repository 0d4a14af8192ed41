/** gardenhub/decorators.py: wrappers that answer 403 unless the user has
    the right, and otherwise hand the request to the wrapped view. The
    object lookups use objects.get, so a missing id raises instead of
    answering 404. */
module Decorators {
  import opened Records
  import Models

  datatype Gated<R> =
    | Refused(message: string)
      /** The wrapped view's own answer, unchanged. */
    | Delegated(result: R)
      /** objects.get raised DoesNotExist. */
    | DoesNotExist

  function IsAnything<R>(g: Graph, u: UserId, view: UserId -> R): Gated<R>
    requires g.Valid()
  {
    if !Models.IsAnything(g, u) then
      Refused("You haven't been assigned to any gardens or plots. This should never happen. Please contact support. We're sorry!")
    else Delegated(view(u))
  }

  function CanEditPlot<R>(g: Graph, u: UserId, p: PlotId, view: (UserId, PlotId) -> R): Gated<R>
    requires g.Valid()
  {
    if p !in g.plots then DoesNotExist
    else if !Models.CanEditPlot(g, u, p) then Refused("You do not have permission to edit this plot.")
    else Delegated(view(u, p))
  }

  function CanEditGarden<R>(g: Graph, u: UserId, gid: GardenId, view: (UserId, GardenId) -> R): Gated<R> {
    if gid !in g.gardens then DoesNotExist
    else if !Models.CanEditGarden(g, u, gid) then Refused("You do not have permission to edit this garden.")
    else Delegated(view(u, gid))
  }

  function CanEditOrder<R>(g: Graph, u: UserId, o: OrderId, view: (UserId, OrderId) -> R): Gated<R>
    requires g.Valid()
  {
    if o !in g.orders then DoesNotExist
    else if !Models.CanEditOrder(g, u, o) then Refused("You do not have permission to manage this order.")
    else Delegated(view(u, o))
  }

  /** The is_anything gate refuses exactly the users who garden no plot
      and manage no garden (a user who only picks among them) and passes
      everyone else through to the view untouched. */
  lemma IsAnythingGate<R>(g: Graph, u: UserId, view: UserId -> R)
    requires g.Valid()
    ensures IsAnything(g, u, view).Refused? <==> Models.GetPlots(g, u) == {} && Models.GetGardens(g, u) == {}
    ensures !IsAnything(g, u, view).Refused? ==> IsAnything(g, u, view) == Delegated(view(u))
  {
    var plots, gardens := Models.GetPlots(g, u), Models.GetGardens(g, u);
    if plots != {} {
      var p :| p in plots;
      Models.MemberMakesPositive(plots, p);
    } else {
      assert |plots| == 0;
    }
    if gardens != {} {
      var gid :| gid in gardens;
      Models.MemberMakesPositive(gardens, gid);
    } else {
      assert |gardens| == 0;
    }
    assert Models.IsAnything(g, u) <==> |plots| > 0 || |gardens| > 0;
  }

  /** The plot gate passes the plot's gardeners and its garden's managers
      to the view and refuses everyone else. */
  lemma CanEditPlotGate<R>(g: Graph, u: UserId, p: PlotId, view: (UserId, PlotId) -> R)
    requires g.Valid() && p in g.plots
    ensures CanEditPlot(g, u, p, view).Refused? <==>
      u !in g.plots[p].gardeners && u !in g.GardenOf(p).managers
    ensures !CanEditPlot(g, u, p, view).Refused? ==> CanEditPlot(g, u, p, view) == Delegated(view(u, p))
  {
  }

  /** The garden gate admits exactly the garden's managers, and hands
      them to the view untouched. */
  lemma CanEditGardenGate<R>(g: Graph, u: UserId, gid: GardenId, view: (UserId, GardenId) -> R)
    requires gid in g.gardens
    ensures CanEditGarden(g, u, gid, view).Refused? <==> u !in g.gardens[gid].managers
    ensures !CanEditGarden(g, u, gid, view).Refused? ==> CanEditGarden(g, u, gid, view) == Delegated(view(u, gid))
  {
  }

  /** A gardener of one of a garden's plots who does not manage the garden
      is refused by the garden gate, although the plot gate lets that
      gardener through. */
  lemma GardenerIsNotGardenEditor<R, S>(g: Graph, u: UserId, p: PlotId, view: (UserId, GardenId) -> R,
                                        plotView: (UserId, PlotId) -> S)
    requires g.Valid() && p in g.plots
    requires u in g.plots[p].gardeners && u !in g.GardenOf(p).managers
    ensures CanEditGarden(g, u, g.plots[p].garden, view).Refused?
    ensures CanEditPlot(g, u, p, plotView) == Delegated(plotView(u, p))
  {
  }

  /** The order gate is the plot gate of the order's plot. */
  lemma CanEditOrderGate<R>(g: Graph, u: UserId, o: OrderId, view: (UserId, OrderId) -> R)
    requires g.Valid() && o in g.orders
    ensures CanEditOrder(g, u, o, view).Refused? <==>
      var p := g.orders[o].plot;
      u !in g.plots[p].gardeners && u !in g.GardenOf(p).managers
    ensures !CanEditOrder(g, u, o, view).Refused? ==> CanEditOrder(g, u, o, view) == Delegated(view(u, o))
  {
  }

  /** Missing ids raise before any permission is looked at. */
  lemma MissingObjectsRaise<R>(g: Graph, u: UserId, id: nat, view: (UserId, nat) -> R)
    requires g.Valid()
    ensures id !in g.plots ==> CanEditPlot(g, u, id, view) == DoesNotExist
    ensures id !in g.gardens ==> CanEditGarden(g, u, id, view) == DoesNotExist
    ensures id !in g.orders ==> CanEditOrder(g, u, id, view) == DoesNotExist
  {
  }
}
