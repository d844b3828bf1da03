/** The teaching-policy compiler: from estimated mastery and recall to a constrained practice plan. */
module Policy {
  import opened Prelude

  datatype SupportLevel = Guided | DelayedHint | Minimal
  datatype EvidenceMode = RecallMode | ProductionMode
  datatype PracticeForm = FocusedRecall | NearTransfer | NovelTransfer

  datatype TeachingPolicy = TeachingPolicy(
    target: nat,
    bandLow: real,
    bandHigh: real,
    support: SupportLevel,
    mode: EvidenceMode,
    practice: PracticeForm)

  /** The mastery the compiler goes by: the shadow prediction when it is enabled and present. */
  function Effective(mastery: real, dktPrediction: Option<real>, dktEnabled: bool): real {
    if dktEnabled && dktPrediction.Some? then dktPrediction.value else mastery
  }

  function Compile(point: nat, mastery: real, retrievability: real, production: real,
                   dktPrediction: Option<real>, dktEnabled: bool): TeachingPolicy
  {
    var effective := Effective(mastery, dktPrediction, dktEnabled);
    if effective < 0.35 then
      TeachingPolicy(point, 0.15, 0.35, Guided, RecallMode, FocusedRecall)
    else if effective <= 0.75 then
      TeachingPolicy(point, 0.4, 0.65, DelayedHint,
                     if production < 0.6 then RecallMode else ProductionMode, NearTransfer)
    else if retrievability < 0.8 then
      TeachingPolicy(point, 0.7, 0.9, Minimal, ProductionMode, NovelTransfer)
    else
      TeachingPolicy(point, 0.65, 0.8, Minimal, ProductionMode, NovelTransfer)
  }

  /** The plan for each band of effective mastery: below 0.35, from 0.35 to 0.75, and above. */
  ghost predicate PlanFor(p: TeachingPolicy, point: nat, mastery: real, recall: real, production: real) {
    && p.target == point
    && (mastery < 0.35 ==> p == TeachingPolicy(point, 0.15, 0.35, Guided, RecallMode, FocusedRecall))
    && (0.35 <= mastery <= 0.75 ==>
          && p.bandLow == 0.4 && p.bandHigh == 0.65 && p.support.DelayedHint? && p.practice.NearTransfer?
          && (p.mode.ProductionMode? <==> production >= 0.6))
    && (mastery > 0.75 ==>
          && p.support.Minimal? && p.mode.ProductionMode? && p.practice.NovelTransfer?
          && (recall < 0.8 ==> p.bandLow == 0.7 && p.bandHigh == 0.9)
          && (recall >= 0.8 ==> p.bandLow == 0.65 && p.bandHigh == 0.8))
  }

  /** The shadow prediction replaces mastery exactly when it is enabled and present. */
  lemma CompileExactly(point: nat, mastery: real, recall: real, production: real, dkt: Option<real>, enabled: bool)
    ensures var p := Compile(point, mastery, recall, production, dkt, enabled);
      && (enabled && dkt.Some? ==> PlanFor(p, point, dkt.value, recall, production))
      && (!enabled || dkt.None? ==> PlanFor(p, point, mastery, recall, production))
  {
  }

  /** No lower target band, no more support, no easier evidence and no easier form of practice. */
  predicate NoEasier(p: TeachingPolicy, q: TeachingPolicy) {
    && p.bandLow <= q.bandLow && p.bandHigh <= q.bandHigh
    && (p.support.Minimal? ==> q.support.Minimal?) && (q.support.Guided? ==> p.support.Guided?)
    && (p.mode.ProductionMode? ==> q.mode.ProductionMode?)
    && (p.practice.NovelTransfer? ==> q.practice.NovelTransfer?)
    && (q.practice.FocusedRecall? ==> p.practice.FocusedRecall?)
  }

  /** At equal recall and production, higher effective mastery never gets an easier policy. */
  lemma CompileMonotone(point: nat, m: real, m': real, recall: real, production: real,
                        dkt: Option<real>, dkt': Option<real>, enabled: bool)
    requires Effective(m, dkt, enabled) <= Effective(m', dkt', enabled)
    ensures NoEasier(Compile(point, m, recall, production, dkt, enabled),
                     Compile(point, m', recall, production, dkt', enabled))
  {
  }
}
