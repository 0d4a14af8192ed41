/** gardenhub/helpers.py: role checks by direct membership, which count
    only the user's own places on plots and gardens. */
module Helpers {
  import opened Records
  import Models

  /** is_gardener: some plot lists the user as a gardener. */
  predicate IsGardener(g: Graph, u: UserId) {
    |Models.GardenedPlots(g, u)| > 0
  }

  /** is_garden_manager: some garden lists the user as a manager. */
  predicate IsGardenManager(g: Graph, u: UserId) {
    |Models.GetGardens(g, u)| > 0
  }

  /** The direct-membership check admits exactly the users some plot
      lists; managing a garden does not count. */
  lemma IsGardenerIff(g: Graph, u: UserId)
    ensures IsGardener(g, u) <==> exists p :: p in g.plots && u in g.plots[p].gardeners
  {
    if IsGardener(g, u) {
      var p :| p in Models.GardenedPlots(g, u);
    }
    if exists p :: p in g.plots && u in g.plots[p].gardeners {
      var p :| p in g.plots && u in g.plots[p].gardeners;
      Models.MemberMakesPositive(Models.GardenedPlots(g, u), p);
    }
  }

  lemma IsGardenManagerIff(g: Graph, u: UserId)
    ensures IsGardenManager(g, u) <==> exists gid :: gid in g.gardens && u in g.gardens[gid].managers
  {
    if IsGardenManager(g, u) {
      var gid :| gid in Models.GetGardens(g, u);
    }
    if exists gid :: gid in g.gardens && u in g.gardens[gid].managers {
      var gid :| gid in g.gardens && u in g.gardens[gid].managers;
      Models.MemberMakesPositive(Models.GetGardens(g, u), gid);
    }
  }

  /** A gardener by direct membership is a gardener for the user model
      too: every plot the user gardens is among get_plots(). */
  lemma GardenerIsModelGardener(g: Graph, u: UserId)
    requires g.Valid() && IsGardener(g, u)
    ensures Models.IsGardener(g, u)
  {
    var p :| p in Models.GardenedPlots(g, u);
    Models.MemberMakesPositive(Models.GetPlots(g, u), p);
  }

  /** The converse fails: a manager of a garden with a plot, who gardens
      no plot, is a gardener for the user model but not here. */
  lemma ManagerIsOnlyModelGardener(g: Graph, u: UserId, p: PlotId)
    requires g.Valid() && p in g.plots && u in g.GardenOf(p).managers
    requires forall q :: q in g.plots ==> u !in g.plots[q].gardeners
    ensures Models.IsGardener(g, u) && !IsGardener(g, u)
  {
    Models.MemberMakesPositive(Models.GetPlots(g, u), p);
    assert Models.GardenedPlots(g, u) == {};
  }

  /** Both notions of garden manager agree. */
  lemma GardenManagerAgrees(g: Graph, u: UserId)
    ensures IsGardenManager(g, u) <==> Models.IsGardenManager(g, u)
  {
  }
}
