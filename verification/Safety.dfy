/** What no run of a plan can do, at whatever step it fails, is cancelled or is
    looked at, and however late its operations take effect. */
module Safety {
  import opened Paths
  import opened Scans
  import opened Differ
  import opened Effects
  import opened Executor
  import opened LateRuns

  /** An excluded entry that is of the same kind at the source, or not there at
      all, is unchanged at every step of every run. */
  lemma ExcludedIsSafe(src: ScanResult, dst: ScanResult, o: Options, c: Config,
                       ws: seq<World>, events: seq<Event>, i: nat, e: Path)
    requires IsStages(src, dst, o, c.stages) && LateRun(c, ws, events) && i < |ws|
    requires TreeOk(ws[0].x.tree) && Reflects(dst, ws[0].x.tree)
    requires var d := ws[0].x.tree;
      && e in d && !o.Admits(e, d[e].Dir?)
      && (e in src.entries ==> src.entries[e].isDir == d[e].Dir? && src.entries[e].isSymlink == d[e].Link?)
    ensures e in ws[i].x.tree && ws[i].x.tree[e] == ws[0].x.tree[e]
  {
    LateRunIsChurn(c, ws, events, i);
    SameKindIsNotCleared(src, dst, o, ws[0].x.tree, e);
    ExcludedSurvives(src, dst, o, c.stages, Trees(ws)[..i + 1], e);
  }

  /** In update mode, at every step of every run, everything that was there still
      is, with its kind, and a file differs only where the source was newer. */
  lemma UpdateIsSafe(src: ScanResult, dst: ScanResult, o: Options, c: Config, prune: Path -> bool,
                     ws: seq<World>, events: seq<Event>, i: nat)
    requires o.mode == Update && IsStages(src, dst, o, c.stages) && LateRun(c, ws, events) && i < |ws|
    requires TreeOk(ws[0].x.tree) && IsScan(ws[0].x.tree, NO_FAULTS, prune, dst) && PruneSound(prune, o)
    ensures Kept(src, o, ws[0].x.tree, ws[i].x.tree)
  {
    LateRunIsChurn(c, ws, events, i);
    UpdateNeverDestroys(src, dst, o, c.stages, prune, Trees(ws)[..i + 1]);
  }
}
