/** The auto-export plugin loop of the capture handler (lines 446-463): every
    enabled config of the default session is looked up and executed with
    the new item; a fault is caught and written into that config only. */
module PluginChain {
  import opened Model

  /** The message of the `NullReferenceException` raised when the lookup
      returned null and `Execute` is called on it. */
  const NullReferenceMessage: string := "Object reference not set to an instance of an object."

  /** Lines 458-460. */
  function Failed(c: PluginConfig, message: string): PluginConfig {
    c.(isError := true, error := message, isRedy := true)
  }

  /** The config after the loop body has dealt with it. A successful run
      leaves the config as it was: it does not clear an earlier error. */
  function AfterRun(c: PluginConfig, run: PluginRun): PluginConfig {
    if !c.isEnabled then c
    else match run
      case Executes => c
      case Throws(m) => Failed(c, m)
      case NotRegistered => Failed(c, NullReferenceMessage)
  }

  /** Whether the loop calls `Execute` on a plugin for this config. */
  predicate Attempted(c: PluginConfig, run: PluginRun) {
    c.isEnabled && !run.NotRegistered?
  }

  /** The configs after the first `k` iterations of the loop. */
  function ChainPrefix(cs: seq<PluginConfig>, runs: nat -> PluginRun, k: nat): (r: seq<PluginConfig>)
    requires k <= |cs|
    ensures |r| == |cs|
  {
    seq(|cs|, j requires 0 <= j < |cs| => if j < k then AfterRun(cs[j], runs(j)) else cs[j])
  }

  /** The configs after the whole loop. */
  function Chain(cs: seq<PluginConfig>, runs: nat -> PluginRun): seq<PluginConfig> {
    ChainPrefix(cs, runs, |cs|)
  }

  /** The executions of the first `k` iterations, in loop order. */
  function ChainLog(cs: seq<PluginConfig>, runs: nat -> PluginRun, item: FileItem, k: nat): seq<Effect>
    requires k <= |cs|
    decreases k
  {
    if k == 0 then []
    else
      var step := if Attempted(cs[k - 1], runs(k - 1)) then [PluginExecuted(k - 1, cs[k - 1].pluginType, item)] else [];
      ChainLog(cs, runs, item, k - 1) + step
  }

  /** One more iteration of the loop updates config `k` in place. */
  lemma ChainPrefixStep(cs: seq<PluginConfig>, runs: nat -> PluginRun, k: nat)
    requires k < |cs|
    ensures ChainPrefix(cs, runs, k + 1) == ChainPrefix(cs, runs, k)[k := AfterRun(cs[k], runs(k))]
  {
  }

  /** The log holds plugin executions only, each of a config that is
      enabled and whose plugin was found, with the item just cataloged, in
      increasing position order. */
  lemma {:induction false} ChainLogShape(cs: seq<PluginConfig>, runs: nat -> PluginRun, item: FileItem, k: nat)
    requires k <= |cs|
    ensures var log := ChainLog(cs, runs, item, k);
      (forall e | e in log ::
        e.PluginExecuted? && e.index < k && Attempted(cs[e.index], runs(e.index)) &&
        e.pluginType == cs[e.index].pluginType && e.item == item) &&
      (forall a, b | 0 <= a < b < |log| :: log[a].index < log[b].index)
    decreases k
  {
    if k > 0 {
      ChainLogShape(cs, runs, item, k - 1);
    }
  }

  /** A config's plugin is executed exactly when that config is enabled
      and its plugin was found, whatever happened to the other plugins. */
  lemma {:induction false} ChainExecutes(cs: seq<PluginConfig>, runs: nat -> PluginRun, item: FileItem, k: nat, j: nat)
    requires j < k <= |cs|
    ensures PluginExecuted(j, cs[j].pluginType, item) in ChainLog(cs, runs, item, k) <==> Attempted(cs[j], runs(j))
    decreases k
  {
    if j < k - 1 {
      ChainExecutes(cs, runs, item, k - 1, j);
      ChainLogShape(cs, runs, item, k - 1);
    } else {
      ChainLogShape(cs, runs, item, k - 1);
    }
  }

  /** What the loop leaves in each config: disabled configs and configs
      whose plugin succeeded are unchanged, and a fault (a thrown exception
      or a missing plugin) marks only the config it happened in. */
  lemma ChainIsolatesFaults(cs: seq<PluginConfig>, runs: nat -> PluginRun, j: nat)
    requires j < |cs|
    ensures |Chain(cs, runs)| == |cs|
    ensures !cs[j].isEnabled ==> Chain(cs, runs)[j] == cs[j]
    ensures runs(j) == Executes ==> Chain(cs, runs)[j] == cs[j]
    ensures cs[j].isEnabled && runs(j).Throws? ==> Chain(cs, runs)[j] == Failed(cs[j], runs(j).message)
    ensures cs[j].isEnabled && runs(j).NotRegistered? ==> Chain(cs, runs)[j] == Failed(cs[j], NullReferenceMessage)
  {
    assert Chain(cs, runs)[j] == AfterRun(cs[j], runs(j));
  }
}
