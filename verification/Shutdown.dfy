/** What the shutdown deletes: the slices of every pool the run ever announced, and no others. */
module Shutdown {
  import opened Text
  import opened Naming
  import opened Pools
  import opened Runs

  /** A published ResourceSlice, as far as the shutdown looks at it. */
  datatype SliceObject = SliceObject(driver: string, nodeName: string, pool: string)

  type Slices = map<string, SliceObject>

  /** The slices a list request for a driver returns: cluster-wide ones only. */
  function SlicesOf(slices: Slices, driver: string): Slices {
    map n | n in slices && slices[n].driver == driver && slices[n].nodeName == "" :: slices[n]
  }

  /** What is left when the slices of these drivers' pools are deleted; deletions of the failing names do not happen. */
  function Cleaned(slices: Slices, resources: Resources, drivers: set<string>, deleteErrors: set<string>): Slices {
    map n | n in slices && !Doomed(resources, drivers, deleteErrors, n, slices[n]) :: slices[n]
  }

  predicate Doomed(resources: Resources, drivers: set<string>, deleteErrors: set<string>, name: string,
                   s: SliceObject) {
    && s.driver in drivers && s.nodeName == "" && name !in deleteErrors
    && s.driver in resources && s.pool in resources[s.driver]
  }

  lemma CleanedOfNothing(slices: Slices, resources: Resources, deleteErrors: set<string>)
    ensures Cleaned(slices, resources, {}, deleteErrors) == slices
  {
  }

  /** Every device info and fabric some scan of the run has read. */
  ghost predicate EverScanned(infos: seq<DeviceInfo>, trace: seq<Event>, d: string, p: string) {
    exists i: nat, f: int :: Configured(infos, d, p, i, f) && Observed(trace, infos[i].cdiModelName, f) != []
  }

  /** The driver's controller has been handed this pool at some point. */
  ghost predicate EverAnnounced(prefix: string, infos: seq<DeviceInfo>, trace: seq<Event>, d: string, p: string) {
    d in Drivers(infos) && exists j :: 0 <= j < |Sent(prefix, infos, trace, d)| && p in Sent(prefix, infos, trace, d)[j]
  }

  lemma {:induction false} HeldIffAnnounced(prefix: string, infos: seq<DeviceInfo>, trace: seq<Event>, d: string,
                                            p: string)
    requires d in Drivers(infos)
    ensures p in Run(prefix, infos, trace)[d] <==> EverAnnounced(prefix, infos, trace, d, p)
  {
    PublicationCoherent(prefix, infos, trace, d);
    var sent := Sent(prefix, infos, trace, d);
    assert sent[|sent| - 1] == Run(prefix, infos, trace)[d];
  }

  lemma {:induction false} HeldIffScanned(prefix: string, infos: seq<DeviceInfo>, trace: seq<Event>, d: string,
                                          p: string)
    requires ValidInfos(infos) && ValidTrace(infos, trace) && d in Drivers(infos)
    ensures p in Run(prefix, infos, trace)[d] <==> EverScanned(infos, trace, d, p)
  {
    if p in Run(prefix, infos, trace)[d] {
      var i, f := OnlyConfiguredPools(prefix, infos, trace, d, p);
    }
    if EverScanned(infos, trace, d, p) {
      var i: nat, f: int :| Configured(infos, d, p, i, f) && Observed(trace, infos[i].cdiModelName, f) != [];
      PoolHistory(prefix, infos, trace, i, f);
    }
  }

  /** Main result on shutting down. At the end of any run whatsoever, with no request failing, exactly these slices are
      gone: the cluster-wide ones of a managed driver whose pool that driver's controller was handed at any time, which
      are the pools of the device infos and fabrics that some scan has read. */
  lemma {:induction false} ShutdownDeletesWhatWasAnnounced(prefix: string, infos: seq<DeviceInfo>, trace: seq<Event>,
                                                           slices: Slices, n: string)
    requires ValidInfos(infos) && ValidTrace(infos, trace) && n in slices
    ensures var s := slices[n];
            && (n !in Cleaned(slices, Run(prefix, infos, trace), Drivers(infos), {})
                <==> s.nodeName == "" && EverAnnounced(prefix, infos, trace, s.driver, s.pool))
            && (EverAnnounced(prefix, infos, trace, s.driver, s.pool)
                <==> s.driver in Drivers(infos) && EverScanned(infos, trace, s.driver, s.pool))
  {
    var s := slices[n];
    if s.driver in Drivers(infos) {
      HeldIffAnnounced(prefix, infos, trace, s.driver, s.pool);
      HeldIffScanned(prefix, infos, trace, s.driver, s.pool);
    }
  }

  /** Whatever fails: a slice is deleted exactly if it is cluster-wide, its driver could be listed, its own deletion did
      not fail, and its pool was announced. One failing request spares no other slice. */
  lemma {:induction false} ShutdownDeletesNothingElse(prefix: string, infos: seq<DeviceInfo>, trace: seq<Event>,
                                                      slices: Slices, drivers: set<string>, deleteErrors: set<string>,
                                                      n: string)
    requires ValidInfos(infos) && ValidTrace(infos, trace) && n in slices
    ensures var s := slices[n];
            n !in Cleaned(slices, Run(prefix, infos, trace), drivers, deleteErrors) <==>
            && s.nodeName == "" && s.driver in drivers && n !in deleteErrors
            && EverAnnounced(prefix, infos, trace, s.driver, s.pool)
  {
    if slices[n].driver in Drivers(infos) {
      HeldIffAnnounced(prefix, infos, trace, slices[n].driver, slices[n].pool);
    }
  }

  /** Of the published slices, exactly those of announced pools are gone, except where listing or deleting failed; the
      rest are untouched. */
  ghost predicate CleanShutdown(prefix: string, infos: seq<DeviceInfo>, trace: seq<Event>, published: Slices,
                                listErrors: set<string>, deleteErrors: set<string>, left: Slices) {
    && (forall n :: n in left ==> n in published && left[n] == published[n])
    && (forall n :: n in published ==>
          (n !in left <==> && published[n].nodeName == "" && published[n].driver !in listErrors && n !in deleteErrors
                           && EverAnnounced(prefix, infos, trace, published[n].driver, published[n].pool)))
  }

  lemma {:induction false} ShutdownIsClean(prefix: string, infos: seq<DeviceInfo>, trace: seq<Event>, published: Slices,
                                           listErrors: set<string>, deleteErrors: set<string>)
    requires ValidInfos(infos) && ValidTrace(infos, trace)
    ensures CleanShutdown(prefix, infos, trace, published, listErrors, deleteErrors,
                          Cleaned(published, Run(prefix, infos, trace), Drivers(infos) - listErrors, deleteErrors))
  {
    forall n | n in published
      ensures n !in Cleaned(published, Run(prefix, infos, trace), Drivers(infos) - listErrors, deleteErrors) <==>
              && published[n].nodeName == "" && published[n].driver !in listErrors && n !in deleteErrors
              && EverAnnounced(prefix, infos, trace, published[n].driver, published[n].pool)
    {
      ShutdownDeletesNothingElse(prefix, infos, trace, published, Drivers(infos) - listErrors, deleteErrors, n);
    }
  }

  // The deletions one by one.

  /** Of the doomed slices, those of these names are still there. */
  ghost predicate CleanedBut(slices: Slices, resources: Resources, drivers: set<string>, deleteErrors: set<string>,
                             spared: set<string>, left: Slices) {
    && (forall n :: n in left <==>
          n in slices && (n in spared || !Doomed(resources, drivers, deleteErrors, n, slices[n])))
    && (forall n :: n in left ==> left[n] == slices[n])
  }

  lemma CleanedAtStart(slices: Slices, resources: Resources, driver: string, deleteErrors: set<string>)
    ensures CleanedBut(slices, resources, {driver}, deleteErrors, SlicesOf(slices, driver).Keys, slices)
  {
  }

  lemma CleanedInTheEnd(slices: Slices, resources: Resources, drivers: set<string>, deleteErrors: set<string>,
                        left: Slices)
    requires CleanedBut(slices, resources, drivers, deleteErrors, {}, left)
    ensures left == Cleaned(slices, resources, drivers, deleteErrors)
  {
  }

  lemma CleanedOneMore(slices: Slices, resources: Resources, drivers: set<string>, deleteErrors: set<string>,
                       driver: string)
    requires driver !in drivers
    ensures Cleaned(Cleaned(slices, resources, drivers, deleteErrors), resources, {driver}, deleteErrors)
         == Cleaned(slices, resources, drivers + {driver}, deleteErrors)
  {
  }
}
