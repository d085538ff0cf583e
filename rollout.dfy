// Canary rollout of apps/backend/app/services/rollout.py: configuration read
// from the rollout_config table with environment defaults, deterministic
// bucketing of users, per-variant statistics, and the guard that may switch
// the canary off.
module Rollout {
  import opened Wrappers
  import opened Numeric
  import opened Text
  import opened FeedTypes

  /** `_bool_from_value`: the trimmed, lower-cased value is one of the
      accepted truthy spellings. */
  predicate BoolFromValue(value: string)
  {
    Lower(Strip(value)) in {"1", "true", "yes", "y", "on"}
  }

  /** Surrounding whitespace and letter case do not matter. */
  lemma BoolFromValueTrue()
    ensures BoolFromValue(" TRUE ")
  {
    StripPaddedTrue();
    assert Lower("TRUE") == "true";
  }

  lemma StripPaddedTrue()
    ensures Strip(" TRUE ") == "TRUE"
  {
    var s, t, u := " TRUE ", "TRUE ", "TRUE";
    assert IsSpace(s[0]) && s[1..] == t && !IsSpace(t[0]);
    LStripNonSpace(t);
    assert LStrip(s) == t;
    assert IsSpace(t[|t| - 1]) && t[..|t| - 1] == u && !IsSpace(u[|u| - 1]);
    RStripNonSpace(u);
    assert RStrip(t) == u;
  }

  /** Whitespace around the word never matters, and the word is compared
      after lowering its letters. */
  lemma BoolFromValuePadded(a: string, w: string, b: string)
    requires AllSpace(a) && AllSpace(b)
    requires w != [] && !IsSpace(w[0]) && !IsSpace(w[|w| - 1])
    ensures BoolFromValue(a + w + b) <==> Lower(w) in {"1", "true", "yes", "y", "on"}
  {
    StripPadded(a, w, b);
  }

  lemma BoolFromValueFalse()
    ensures !BoolFromValue("false")
  {
    assert Strip("false") == "false";
    assert Lower("false") == "false";
  }

  lemma ParseIntFive()
    ensures ParseInt("5") == Some(5)
  {
    assert Strip("5") == "5";
    assert DigitsValue("5") == 5 by { assert "5"[..0] == []; }
  }

  /** `_int_from_value`: `int(value)`, or the default when it does not parse. */
  function IntFromValue(value: string, default: int): (r: int)
    ensures ParseInt(value).Some? ==> r == ParseInt(value).value
    ensures ParseInt(value).None? ==> r == default
  {
    match ParseInt(value)
    case Some(v) => v
    case None => default
  }

  /** `_get_env_default`: an unset or empty variable gives the default. */
  function GetEnvDefault(env: map<string, string>, key: string, default: string): (r: string)
    ensures key in env && env[key] != "" ==> r == env[key]
    ensures (key !in env || env[key] == "") ==> r == default
  {
    if key in env && env[key] != "" then env[key] else default
  }

  /** The frozen `RolloutConfig`. */
  datatype RolloutConfig = RolloutConfig(
    canaryEnabled: bool,
    canaryPercent: int,
    controlModelVersion: string,
    canaryModelVersion: string,
    canaryAutoDisable: bool)

  /** `_rollout_stats_for_window`: one variant's entry. */
  datatype VariantStats = VariantStats(modelVersion: string, impressions: int, clicks: int,
                                       ctr: real, noveltyProxy: Option<real>)

  /** One `(model_version, impressions, clicks, novelty_proxy)` row grouped by model version. */
  datatype StatsRow = StatsRow(modelVersion: string, impressions: Option<int>, clicks: Option<int>,
                               noveltyProxy: Option<real>)

  datatype WindowStats = WindowStats(control: VariantStats, canary: VariantStats)

  /** `float(clicks) / float(impressions) if impressions > 0 else 0.0` */
  function Ctr(clicks: int, impressions: int): (r: real)
    ensures impressions <= 0 ==> r == 0.0
    ensures 0 <= clicks <= impressions ==> 0.0 <= r <= 1.0
  {
    if impressions > 0 then clicks as real / impressions as real else 0.0
  }

  function StatsOfRow(r: StatsRow): (s: VariantStats)
    ensures s.modelVersion == r.modelVersion
    ensures s.impressions == r.impressions.GetOr(0) && s.clicks == r.clicks.GetOr(0)
    ensures s.ctr == Ctr(s.clicks, s.impressions) && s.noveltyProxy == r.noveltyProxy
  {
    var impressions := r.impressions.GetOr(0);
    var clicks := r.clicks.GetOr(0);
    VariantStats(r.modelVersion, impressions, clicks, Ctr(clicks, impressions), r.noveltyProxy)
  }

  /** The entry a variant has before any row: no traffic, no novelty. */
  function EmptyStats(modelVersion: string): VariantStats
  {
    VariantStats(modelVersion, 0, 0, 0.0, None)
  }

  /** The stats after folding `rows`: each row overwrites the canary entry
      when its version is the canary version and the control entry otherwise. */
  function FoldStats(rows: seq<StatsRow>, controlVersion: string, canaryVersion: string): WindowStats
  {
    if rows == [] then WindowStats(EmptyStats(controlVersion), EmptyStats(canaryVersion))
    else
      var s := FoldStats(rows[..|rows| - 1], controlVersion, canaryVersion);
      var r := rows[|rows| - 1];
      if r.modelVersion == canaryVersion then s.(canary := StatsOfRow(r)) else s.(control := StatsOfRow(r))
  }

  /** No row after `i` goes to the canary entry. */
  predicate LastCanaryRow(rows: seq<StatsRow>, canaryVersion: string, i: nat)
  {
    forall j :: i < j < |rows| ==> rows[j].modelVersion != canaryVersion
  }

  /** No row after `i` goes to the control entry. */
  predicate LastControlRow(rows: seq<StatsRow>, canaryVersion: string, i: nat)
  {
    forall j :: i < j < |rows| ==> rows[j].modelVersion == canaryVersion
  }

  /** The last row with the canary version decides the canary entry; with
      no such row it is empty. */
  lemma {:induction false} FoldStatsCanary(rows: seq<StatsRow>, controlVersion: string, canaryVersion: string)
    ensures forall i :: (0 <= i < |rows| && rows[i].modelVersion == canaryVersion && LastCanaryRow(rows, canaryVersion, i)
      ==> FoldStats(rows, controlVersion, canaryVersion).canary == StatsOfRow(rows[i]))
    ensures (forall i :: 0 <= i < |rows| ==> rows[i].modelVersion != canaryVersion)
      ==> FoldStats(rows, controlVersion, canaryVersion).canary == EmptyStats(canaryVersion)
  {
    if rows != [] {
      var n := |rows| - 1;
      var pre := rows[..n];
      FoldStatsCanary(pre, controlVersion, canaryVersion);
      var s := FoldStats(rows, controlVersion, canaryVersion);
      var p := FoldStats(pre, controlVersion, canaryVersion);
      assert s.canary == if rows[n].modelVersion == canaryVersion then StatsOfRow(rows[n]) else p.canary;
      forall i | 0 <= i < |rows| && rows[i].modelVersion == canaryVersion && LastCanaryRow(rows, canaryVersion, i)
        ensures s.canary == StatsOfRow(rows[i])
      {
        if i < n {
          assert rows[n].modelVersion != canaryVersion;
          assert pre[i] == rows[i] && LastCanaryRow(pre, canaryVersion, i);
        }
      }
      if forall i :: 0 <= i < |rows| ==> rows[i].modelVersion != canaryVersion {
        assert rows[n].modelVersion != canaryVersion;
        assert forall i :: 0 <= i < |pre| ==> pre[i] == rows[i];
      }
    }
  }

  /** The last row with any other version decides the control entry; with
      no such row it is empty. */
  lemma {:induction false} FoldStatsControl(rows: seq<StatsRow>, controlVersion: string, canaryVersion: string)
    ensures forall i :: (0 <= i < |rows| && rows[i].modelVersion != canaryVersion && LastControlRow(rows, canaryVersion, i)
      ==> FoldStats(rows, controlVersion, canaryVersion).control == StatsOfRow(rows[i]))
    ensures (forall i :: 0 <= i < |rows| ==> rows[i].modelVersion == canaryVersion)
      ==> FoldStats(rows, controlVersion, canaryVersion).control == EmptyStats(controlVersion)
  {
    forall i | 0 <= i < |rows| && rows[i].modelVersion != canaryVersion && LastControlRow(rows, canaryVersion, i)
      ensures FoldStats(rows, controlVersion, canaryVersion).control == StatsOfRow(rows[i])
    {
      FoldStatsControlAt(rows, controlVersion, canaryVersion, i);
    }
    if forall i :: 0 <= i < |rows| ==> rows[i].modelVersion == canaryVersion {
      FoldStatsNoControl(rows, controlVersion, canaryVersion);
    }
  }

  lemma {:induction false} FoldStatsControlAt(rows: seq<StatsRow>, controlVersion: string, canaryVersion: string, i: nat)
    requires i < |rows| && rows[i].modelVersion != canaryVersion && LastControlRow(rows, canaryVersion, i)
    ensures FoldStats(rows, controlVersion, canaryVersion).control == StatsOfRow(rows[i])
  {
    var n := |rows| - 1;
    if i < n {
      var pre := rows[..n];
      assert rows[n].modelVersion == canaryVersion;
      assert pre[i] == rows[i] && LastControlRow(pre, canaryVersion, i);
      FoldStatsControlAt(pre, controlVersion, canaryVersion, i);
    }
  }

  lemma {:induction false} FoldStatsNoControl(rows: seq<StatsRow>, controlVersion: string, canaryVersion: string)
    requires forall i :: 0 <= i < |rows| ==> rows[i].modelVersion == canaryVersion
    ensures FoldStats(rows, controlVersion, canaryVersion).control == EmptyStats(controlVersion)
  {
    if rows != [] {
      var n := |rows| - 1;
      var pre := rows[..n];
      assert rows[n].modelVersion == canaryVersion;
      assert forall i :: 0 <= i < |pre| ==> pre[i] == rows[i];
      FoldStatsNoControl(pre, controlVersion, canaryVersion);
    }
  }

  /** The `for ... in rows` loop of `_rollout_stats_for_window`. */
  method RolloutStatsForWindow(rows: seq<StatsRow>, controlVersion: string, canaryVersion: string)
    returns (stats: WindowStats)
    ensures stats == FoldStats(rows, controlVersion, canaryVersion)
  {
    stats := WindowStats(EmptyStats(controlVersion), EmptyStats(canaryVersion));
    for i := 0 to |rows|
      invariant stats == FoldStats(rows[..i], controlVersion, canaryVersion)
    {
      assert rows[..i + 1][..i] == rows[..i];
      var r := rows[i];
      if r.modelVersion == canaryVersion {
        stats := stats.(canary := StatsOfRow(r));
      } else {
        stats := stats.(control := StatsOfRow(r));
      }
    }
    assert rows[..|rows|] == rows;
  }

  /** `assign_variant`. `digestPrefix(key)` stands for
      `int(sha256(key).hexdigest()[:8], 16)`. */
  function AssignVariant(userId: Option<string>, requestId: Option<string>, config: RolloutConfig,
                         digestPrefix: string -> nat): string
  {
    if !config.canaryEnabled || config.canaryPercent <= 0 then "control"
    else
      var key := if Truthy(userId) then userId.value else if Truthy(requestId) then requestId.value else "anonymous";
      var bucket := digestPrefix(key) % 100;
      if bucket < config.canaryPercent then "canary" else "control"
  }

  /** The variant is "control" or "canary"; a disabled canary or a percent of
      0 or less always gives "control", and 100 always gives "canary". */
  lemma AssignVariantCases(userId: Option<string>, requestId: Option<string>, config: RolloutConfig,
                           digestPrefix: string -> nat)
    ensures var v := AssignVariant(userId, requestId, config, digestPrefix);
      (v == "control" || v == "canary")
      && (!config.canaryEnabled || config.canaryPercent <= 0 ==> v == "control")
      && (config.canaryEnabled && config.canaryPercent >= 100 ==> v == "canary")
  {
  }

  /** A user with an id gets the same variant whatever the request id. */
  lemma AssignVariantIgnoresRequest(userId: string, r1: Option<string>, r2: Option<string>,
                                    config: RolloutConfig, digestPrefix: string -> nat)
    requires userId != ""
    ensures AssignVariant(Some(userId), r1, config, digestPrefix)
         == AssignVariant(Some(userId), r2, config, digestPrefix)
  {
  }

  /** `model_version_for_variant` */
  function ModelVersionForVariant(variant: string, config: RolloutConfig): (r: string)
    ensures variant == "canary" ==> r == config.canaryModelVersion
    ensures variant != "canary" ==> r == config.controlModelVersion
  {
    if variant == "canary" then config.canaryModelVersion else config.controlModelVersion
  }

  /** `ctr_drop`: the relative CTR loss of the canary, 0 when control has no CTR. */
  function CtrDrop(controlCtr: real, canaryCtr: real): (r: real)
    ensures controlCtr <= 0.0 ==> r == 0.0
    ensures controlCtr > 0.0 && canaryCtr >= controlCtr ==> r <= 0.0
    ensures controlCtr > 0.0 && 0.0 <= canaryCtr ==> r <= 1.0
  {
    if controlCtr > 0.0 then 1.0 - canaryCtr / controlCtr else 0.0
  }

  /** `novelty_delta`: present only when both novelties are. */
  function NoveltyDelta(control: Option<real>, canary: Option<real>): (r: Option<real>)
    ensures r.Some? <==> control.Some? && canary.Some?
    ensures r.Some? ==> r.value + control.value == canary.value
  {
    if control.Some? && canary.Some? then Some(canary.value - control.value) else None
  }

  /** `should_rollback` */
  predicate ShouldRollback(ctrDrop: real, noveltyDelta: Option<real>,
                           ctrDropThreshold: real, noveltySpikeThreshold: real)
  {
    ctrDrop >= ctrDropThreshold && noveltyDelta.Some? && noveltyDelta.value >= noveltySpikeThreshold
  }

  /** The dict `check_rollout_guard` returns. */
  datatype GuardReport = GuardReport(
    windowMinutes: int,
    ctrDropThreshold: real,
    noveltySpikeThreshold: real,
    stats: WindowStats,
    ctrDrop: real,
    noveltyDelta: Option<real>,
    rollbackRecommended: bool,
    autoDisabled: bool)

  /** The report `check_rollout_guard` builds from the config and the stats. */
  function GuardOf(config: RolloutConfig, stats: WindowStats, windowMinutes: int,
                   ctrDropThreshold: real, noveltySpikeThreshold: real): (g: GuardReport)
    ensures g.rollbackRecommended <==> ShouldRollback(g.ctrDrop, g.noveltyDelta, ctrDropThreshold, noveltySpikeThreshold)
    ensures g.autoDisabled <==> g.rollbackRecommended && config.canaryAutoDisable && config.canaryEnabled
  {
    var drop := CtrDrop(stats.control.ctr, stats.canary.ctr);
    var delta := NoveltyDelta(stats.control.noveltyProxy, stats.canary.noveltyProxy);
    var rollback := ShouldRollback(drop, delta, ctrDropThreshold, noveltySpikeThreshold);
    GuardReport(windowMinutes, ctrDropThreshold, noveltySpikeThreshold, stats, drop, delta, rollback,
                rollback && config.canaryAutoDisable && config.canaryEnabled)
  }

  /** The decision part of `check_rollout_guard`: `ctr_drop`,
      `novelty_delta`, `should_rollback` and whether to auto-disable. */
  method GuardDecision(config: RolloutConfig, stats: WindowStats, windowMinutes: int,
                       ctrDropThreshold: real, noveltySpikeThreshold: real) returns (report: GuardReport)
    ensures report == GuardOf(config, stats, windowMinutes, ctrDropThreshold, noveltySpikeThreshold)
  {
    var controlCtr := stats.control.ctr;
    var canaryCtr := stats.canary.ctr;
    var ctrDrop := 0.0;
    if controlCtr > 0.0 {
      ctrDrop := 1.0 - canaryCtr / controlCtr;
    }
    var noveltyDelta: Option<real> := None;
    if stats.control.noveltyProxy.Some? && stats.canary.noveltyProxy.Some? {
      noveltyDelta := Some(stats.canary.noveltyProxy.value - stats.control.noveltyProxy.value);
    }
    var shouldRollback := ctrDrop >= ctrDropThreshold && noveltyDelta.Some?
                          && noveltyDelta.value >= noveltySpikeThreshold;
    var autoDisabled := shouldRollback && config.canaryAutoDisable && config.canaryEnabled;
    report := GuardReport(windowMinutes, ctrDropThreshold, noveltySpikeThreshold, stats,
                          ctrDrop, noveltyDelta, shouldRollback, autoDisabled);
  }

  /** The decision on given stats: a CTR of 0.20 for control against 0.15
      for the canary is a drop of 0.25, and novelty 0.10 against 0.25 is a
      spike of 0.15; with thresholds 0.1 both trip and rollback is recommended. */
  lemma GuardScenario()
    ensures var drop := CtrDrop(0.20, 0.15);
            var delta := NoveltyDelta(Some(0.10), Some(0.25));
      drop == 0.25 && delta == Some(0.15) && ShouldRollback(drop, delta, 0.1, 0.1)
  {
  }

  /** Without a novelty on both sides, or below either threshold, no rollback. */
  lemma NoRollbackWithoutNovelty(ctrDrop: real, control: Option<real>, canary: Option<real>, t1: real, t2: real)
    requires control.None? || canary.None?
    ensures !ShouldRollback(ctrDrop, NoveltyDelta(control, canary), t1, t2)
  {
  }

  /** The rollout_config table. `readFails` stands for a lookup that raises,
      which the source answers with the default. */
  class RolloutStore {
    var table: map<string, Option<string>>
    var readFails: bool

    constructor(table0: map<string, Option<string>>, readFails0: bool)
      ensures table == table0 && readFails == readFails0
    {
      table := table0;
      readFails := readFails0;
    }

    /** `_get_rollout_value`: the stored value, or the default when the key
        is missing, its value is NULL, or the lookup fails. */
    function GetRolloutValue(key: string, default: string): (r: string)
      reads this
      ensures !readFails && key in table && table[key].Some? ==> r == table[key].value
      ensures readFails || key !in table || table[key].None? ==> r == default
    {
      if !readFails && key in table && table[key].Some? then table[key].value else default
    }

    /** `load_rollout_config`, with `env` for the process environment. */
    function LoadRolloutConfig(env: map<string, string>): (c: RolloutConfig)
      reads this
      ensures 0 <= c.canaryPercent <= 100
    {
      var enabled := BoolFromValue(GetRolloutValue("CANARY_ENABLED", GetEnvDefault(env, "CANARY_ENABLED", "false")));
      var percentRaw := GetRolloutValue("CANARY_PERCENT", GetEnvDefault(env, "CANARY_PERCENT", "5"));
      var percent := MaxInt(0, MinInt(100, IntFromValue(percentRaw, 0)));
      var control := GetRolloutValue("CONTROL_MODEL_VERSION",
                                     GetEnvDefault(env, "CONTROL_MODEL_VERSION", "reranker_baseline:v1"));
      var canary := GetRolloutValue("CANARY_MODEL_VERSION",
                                    GetEnvDefault(env, "CANARY_MODEL_VERSION", "reranker_baseline:v2"));
      var autoDisable := BoolFromValue(GetRolloutValue("CANARY_AUTO_DISABLE",
                                                       GetEnvDefault(env, "CANARY_AUTO_DISABLE", "false")));
      RolloutConfig(enabled, percent, control, canary, autoDisable)
    }

    /** With nothing stored and nothing in the environment, the canary is
        off at 5%, with the baseline versions, and auto-disable off. */
    lemma DefaultConfig()
      requires table == map[] && !readFails
      ensures LoadRolloutConfig(map[]) == RolloutConfig(false, 5, "reranker_baseline:v1", "reranker_baseline:v2", false)
    {
      BoolFromValueFalse();
      ParseIntFive();
    }

    /** A percent written to the table as the decimal text of `n` (as
        a write through `_set_rollout_value` leaves it) is what the next load reads,
        capped at 100, whatever the environment says. */
    lemma StoredPercentRead(env: map<string, string>, n: nat)
      requires !readFails && "CANARY_PERCENT" in table && table["CANARY_PERCENT"] == Some(NatToString(n))
      ensures LoadRolloutConfig(env).canaryPercent == if n > 100 then 100 else n
    {
      ParseNatToString(n);
    }

    /** `_set_rollout_value`: an upsert of one key. */
    method SetRolloutValue(key: string, value: string)
      modifies this
      ensures table == old(table)[key := Some(value)] && readFails == old(readFails)
    {
      table := table[key := Some(value)];
    }

    /** `check_rollout_guard` on the stats of the window (the rows of the
        events query). It writes `CANARY_ENABLED = "false"` exactly when a
        rollback is recommended while auto-disable and the canary are both
        on, and touches nothing otherwise. */
    method CheckRolloutGuard(env: map<string, string>, rows: seq<StatsRow>, windowMinutes: int,
                             ctrDropThreshold: real, noveltySpikeThreshold: real)
      returns (report: GuardReport)
      modifies this
      ensures var config := old(LoadRolloutConfig(env));
        report == GuardOf(config, FoldStats(rows, config.controlModelVersion, config.canaryModelVersion),
                          windowMinutes, ctrDropThreshold, noveltySpikeThreshold)
      ensures table == (if report.autoDisabled then old(table)["CANARY_ENABLED" := Some("false")] else old(table))
      ensures readFails == old(readFails)
    {
      var config := LoadRolloutConfig(env);
      var stats := RolloutStatsForWindow(rows, config.controlModelVersion, config.canaryModelVersion);
      report := GuardDecision(config, stats, windowMinutes, ctrDropThreshold, noveltySpikeThreshold);
      var autoDisabled := report.autoDisabled;
      if autoDisabled {
        SetRolloutValue("CANARY_ENABLED", "false");
      }
    }

    /** `update_rollout_config`: every key of `updates` (a dict's items, so
        the keys are distinct) is written, and the updates come back as given. */
    method UpdateRolloutConfig(updates: seq<(string, string)>) returns (result: seq<(string, string)>)
      requires forall i, j :: 0 <= i < j < |updates| ==> updates[i].0 != updates[j].0
      modifies this
      ensures result == updates
      ensures forall i :: 0 <= i < |updates| ==> updates[i].0 in table && table[updates[i].0] == Some(updates[i].1)
      ensures forall key :: key in old(table) && (forall i :: 0 <= i < |updates| ==> updates[i].0 != key)
                ==> key in table && table[key] == old(table)[key]
      ensures forall key :: key in table ==> key in old(table) || exists i :: 0 <= i < |updates| && updates[i].0 == key
      ensures readFails == old(readFails)
    {
      for n := 0 to |updates|
        invariant forall i :: 0 <= i < n ==> updates[i].0 in table && table[updates[i].0] == Some(updates[i].1)
        invariant forall key :: key in old(table) && (forall i :: 0 <= i < n ==> updates[i].0 != key)
                    ==> key in table && table[key] == old(table)[key]
        invariant forall key :: key in table ==> key in old(table) || exists i :: 0 <= i < n && updates[i].0 == key
        invariant readFails == old(readFails)
      {
        SetRolloutValue(updates[n].0, updates[n].1);
      }
      result := updates;
    }
  }
}
