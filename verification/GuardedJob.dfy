/** The flag that keeps a periodic job from overlapping itself: it is tested and raised on
    entry, before the first await, and lowered when the run that raised it ends. */
module GuardedJob {
  type RunId = nat

  /** The flag, and the runs between their entry and their end. */
  datatype Guard = Guard(running: bool, active: set<RunId>)

  const Idle: Guard := Guard(false, {})

  /** A run asks to enter: it gets in only if none is under way. */
  function Entered(g: Guard, run: RunId): Guard {
    if g.running then g else Guard(true, g.active + {run})
  }

  /** A run that got in ends, however it ends. */
  function Left(g: Guard, run: RunId): Guard {
    if run in g.active then Guard(false, g.active - {run}) else g
  }

  predicate Exclusive(g: Guard) {
    && (g.running <==> g.active != {})
    && (forall a, b :: a in g.active && b in g.active ==> a == b)
  }

  lemma EntryKeepsExclusive(g: Guard, run: RunId)
    requires Exclusive(g)
    ensures Exclusive(Entered(g, run))
    ensures run in Entered(g, run).active <==> g.active == {} || run in g.active
  {
  }

  lemma ExitKeepsExclusive(g: Guard, run: RunId)
    requires Exclusive(g)
    ensures Exclusive(Left(g, run)) && run !in Left(g, run).active
  {
    if run in g.active {
      assert forall other :: other in g.active ==> other == run;
      assert g.active - {run} == {};
    }
  }

  datatype Event = Enter(run: RunId) | Leave(run: RunId)

  function RunGuard(events: seq<Event>): Guard {
    if events == [] then Idle
    else
      var before := RunGuard(events[..|events| - 1]);
      match events[|events| - 1]
      case Enter(run) => Entered(before, run)
      case Leave(run) => Left(before, run)
  }

  lemma {:induction false} GuardIsExclusive(events: seq<Event>)
    ensures Exclusive(RunGuard(events))
  {
    if events != [] {
      var front := events[..|events| - 1];
      GuardIsExclusive(front);
      EntryKeepsExclusive(RunGuard(front), events[|events| - 1].run);
      ExitKeepsExclusive(RunGuard(front), events[|events| - 1].run);
    }
  }

  /** Two runs never overlap, in any order of entries and exits; and a run is turned away
      only while another is under way, so the job is never locked out for good. */
  lemma RunsNeverOverlap(events: seq<Event>, a: RunId, b: RunId)
    requires a in RunGuard(events).active
    ensures b in RunGuard(events + [Enter(b)]).active <==> b == a
    ensures b in RunGuard(events + [Leave(a), Enter(b)]).active
  {
    GuardIsExclusive(events);
    assert (events + [Enter(b)])[..|events|] == events;
    assert (events + [Leave(a)])[..|events|] == events;
    assert (events + [Leave(a), Enter(b)])[..|events| + 1] == events + [Leave(a)];
    EntryKeepsExclusive(RunGuard(events), b);
    ExitKeepsExclusive(RunGuard(events), a);
    EntryKeepsExclusive(RunGuard(events + [Leave(a)]), b);
  }
}
