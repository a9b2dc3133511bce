/** The short-term gallery of visitors who left, and the search for the best match of one who enters. */
module ReidGallery {
  import opened Options
  import opened Sequences
  import opened BoundedQueues

  /** What an appearance looks like; the two scores that compare appearances are not interpreted. */
  datatype Feature = Feature(histogram: seq<real>, vector: seq<real>)

  datatype ReidSettings = ReidSettings(enabled: bool, threshold: real, histogramWeight: real, cosineWeight: real,
                                       timeout: real, maxEntries: nat, confidenceFloor: real)

  datatype Scores = Scores(histogram: (Feature, Feature) -> real, cosine: (Feature, Feature) -> real)

  datatype ExitRecord = ExitRecord(visitor: nat, exitedAt: real, feature: Feature, track: Option<int>)

  datatype Match = Match(record: ExitRecord, confidence: real, gap: real)

  function CombinedScore(cfg: ReidSettings, histogram: real, cosine: real): real {
    var total := cfg.histogramWeight + cfg.cosineWeight;
    if total <= 0.0 then (histogram + cosine) / 2.0
    else (cfg.histogramWeight * histogram + cfg.cosineWeight * cosine) / total
  }

  function Similarity(cfg: ReidSettings, s: Scores, a: Feature, b: Feature): real {
    CombinedScore(cfg, s.histogram(a, b), s.cosine(a, b))
  }

  function FreshSince(gallery: seq<ExitRecord>, cutoff: real): seq<ExitRecord> {
    if gallery == [] then []
    else
      var last := gallery[|gallery| - 1];
      FreshSince(gallery[..|gallery| - 1], cutoff) + (if last.exitedAt >= cutoff then [last] else [])
  }

  function Prune(cfg: ReidSettings, gallery: seq<ExitRecord>, now: real): seq<ExitRecord> {
    Bounded(FreshSince(gallery, now - cfg.timeout), cfg.maxEntries)
  }

  function Others(gallery: seq<ExitRecord>, visitor: nat): seq<ExitRecord> {
    if gallery == [] then []
    else
      var last := gallery[|gallery| - 1];
      Others(gallery[..|gallery| - 1], visitor) + (if last.visitor != visitor then [last] else [])
  }

  function RemoveVisitor(cfg: ReidSettings, gallery: seq<ExitRecord>, visitor: nat): seq<ExitRecord> {
    Bounded(Others(gallery, visitor), cfg.maxEntries)
  }

  /** The gallery after an exit: pruned, and with the visitor's appearance if there is one. */
  function Register(cfg: ReidSettings, gallery: seq<ExitRecord>, visitor: nat, at: real, track: Option<int>,
                    feature: Option<Feature>): seq<ExitRecord>
  {
    if !cfg.enabled then gallery
    else if feature.None? then Prune(cfg, gallery, at)
    else Push(Prune(cfg, gallery, at), ExitRecord(visitor, at, feature.value, track), cfg.maxEntries)
  }

  // ---------------------------------------------------------------------------
  // Matching
  // ---------------------------------------------------------------------------

  predicate Eligible(cfg: ReidSettings, s: Scores, r: ExitRecord, feature: Feature, now: real) {
    0.0 <= now - r.exitedAt <= cfg.timeout && Similarity(cfg, s, feature, r.feature) >= cfg.threshold
  }

  function Confidence(cfg: ReidSettings, s: Scores, r: ExitRecord, feature: Feature): real {
    var score := Similarity(cfg, s, feature, r.feature);
    if score < cfg.confidenceFloor then cfg.confidenceFloor else score
  }

  /** `best` is the earliest of the most confident eligible records among the first `n`. */
  ghost predicate FirstBest(cfg: ReidSettings, s: Scores, gallery: seq<ExitRecord>, n: nat, feature: Feature,
                            now: real, best: nat) {
    && best < n <= |gallery| && Eligible(cfg, s, gallery[best], feature, now)
    && forall i | 0 <= i < n && Eligible(cfg, s, gallery[i], feature, now) ::
         && Confidence(cfg, s, gallery[i], feature) <= Confidence(cfg, s, gallery[best], feature)
         && (i < best ==> Confidence(cfg, s, gallery[i], feature) < Confidence(cfg, s, gallery[best], feature))
  }

  ghost predicate NoneEligible(cfg: ReidSettings, s: Scores, gallery: seq<ExitRecord>, n: nat, feature: Feature,
                               now: real) {
    n <= |gallery| && forall i | 0 <= i < n :: !Eligible(cfg, s, gallery[i], feature, now)
  }

  function MatchWith(cfg: ReidSettings, s: Scores, r: ExitRecord, feature: Feature, now: real): Match {
    Match(r, Confidence(cfg, s, r, feature), now - r.exitedAt)
  }

  /** There is at most one such record, so the result of a search is determined. */
  lemma {:induction false} FirstBestUnique(cfg: ReidSettings, s: Scores, gallery: seq<ExitRecord>, n: nat,
                                           feature: Feature, now: real, a: nat, b: nat)
    requires FirstBest(cfg, s, gallery, n, feature, now, a) && FirstBest(cfg, s, gallery, n, feature, now, b)
    ensures a == b
  {
    hide Eligible, Confidence;
    assert Confidence(cfg, s, gallery[a], feature) == Confidence(cfg, s, gallery[b], feature);
  }

  /** Search the first `n` records, keeping a record until a more confident one comes. */
  function Search(cfg: ReidSettings, s: Scores, gallery: seq<ExitRecord>, n: nat, feature: Feature,
                  now: real): Option<nat>
    requires n <= |gallery|
    ensures Search(cfg, s, gallery, n, feature, now).Some? ==> Search(cfg, s, gallery, n, feature, now).value < n
  {
    if n == 0 then None
    else
      var best, r := Search(cfg, s, gallery, n - 1, feature, now), gallery[n - 1];
      if Eligible(cfg, s, r, feature, now)
        && (best.Some? ==> Confidence(cfg, s, r, feature) > Confidence(cfg, s, gallery[best.value], feature))
      then Some(n - 1) else best
  }

  /** The search finds the earliest of the most confident eligible records, and nothing only if none is eligible. */
  lemma {:induction false} SearchFindsFirstBest(cfg: ReidSettings, s: Scores, gallery: seq<ExitRecord>, n: nat,
                                                feature: Feature, now: real)
    requires n <= |gallery|
    ensures var best := Search(cfg, s, gallery, n, feature, now);
      if best.None? then NoneEligible(cfg, s, gallery, n, feature, now)
      else FirstBest(cfg, s, gallery, n, feature, now, best.value)
  {
    hide Eligible, Confidence;
    if n > 0 {
      SearchFindsFirstBest(cfg, s, gallery, n - 1, feature, now);
    }
  }

  /** The match for an entering visitor, searched for in a gallery that has just been pruned. */
  function MatchFor(cfg: ReidSettings, s: Scores, gallery: seq<ExitRecord>, feature: Option<Feature>,
                    now: real): Option<Match> {
    if !cfg.enabled || feature.None? then None
    else
      var best := Search(cfg, s, gallery, |gallery|, feature.value, now);
      if best.None? then None else Some(MatchWith(cfg, s, gallery[best.value], feature.value, now))
  }

  // ---------------------------------------------------------------------------
  // What scores, records and matches say
  // ---------------------------------------------------------------------------

  /** The combined score weighs the two scores; without weights both count the same. It lies between them. */
  lemma {:induction false} ScoreIsWeighted(cfg: ReidSettings, histogram: real, cosine: real)
    requires cfg.histogramWeight >= 0.0 && cfg.cosineWeight >= 0.0
    ensures var w, v := cfg.histogramWeight, cfg.cosineWeight;
      var score := CombinedScore(cfg, histogram, cosine);
      && (w + v > 0.0 ==> (w + v) * score == w * histogram + v * cosine)
      && (w + v == 0.0 ==> 2.0 * score == histogram + cosine)
    ensures histogram <= cosine ==> histogram <= CombinedScore(cfg, histogram, cosine) <= cosine
    ensures cosine <= histogram ==> cosine <= CombinedScore(cfg, histogram, cosine) <= histogram
  {
    var w, v := cfg.histogramWeight, cfg.cosineWeight;
    var score := CombinedScore(cfg, histogram, cosine);
    if w + v > 0.0 {
      var sum := w * histogram + v * cosine;
      assert score == sum / (w + v);
      assert (w + v) * score == sum;
      WeightedBetween(w + v, w, v, histogram, cosine, score);
      WeightedBetween(w + v, v, w, cosine, histogram, score);
    }
  }

  lemma {:induction false} WeightedBetween(t: real, w: real, v: real, x: real, y: real, score: real)
    requires w >= 0.0 && v >= 0.0 && t == w + v && t > 0.0 && t * score == w * x + v * y
    ensures x <= y ==> x <= score <= y
  {
    var wx, wy, vx, vy, tx, ty, ts := w * x, w * y, v * x, v * y, t * x, t * y, t * score;
    assert tx == wx + vx && ty == wy + vy;
    if x <= y {
      assert wx <= wy && vx <= vy by {
        Weighted(w, x, y);
        Weighted(v, x, y);
      }
      assert tx <= ts <= ty;
      ProductsOrder(t, x, score);
      ProductsOrder(t, score, y);
    }
  }

  lemma {:induction false} Weighted(w: real, x: real, y: real)
    requires w >= 0.0 && x <= y
    ensures w * x <= w * y
  {
  }

  lemma {:induction false} ProductsOrder(w: real, x: real, y: real)
    requires w > 0.0
    ensures w * x <= w * y ==> x <= y
  {
  }

  /** Pruning keeps exactly the records no older than the timeout, in their order. */
  lemma {:induction false} FreshExactly(gallery: seq<ExitRecord>, cutoff: real, places: set<nat>)
    requires forall i: nat | i < |gallery| :: i in places <==> gallery[i].exitedAt >= cutoff
    ensures FreshSince(gallery, cutoff) == ItemsAt(gallery, places)
  {
    if gallery != [] {
      FreshExactly(gallery[..|gallery| - 1], cutoff, places);
    }
  }

  /** Forgetting a visitor keeps exactly the other records, in their order. */
  lemma {:induction false} OthersExactly(gallery: seq<ExitRecord>, visitor: nat, places: set<nat>)
    requires forall i: nat | i < |gallery| :: i in places <==> gallery[i].visitor != visitor
    ensures Others(gallery, visitor) == ItemsAt(gallery, places)
  {
    if gallery != [] {
      OthersExactly(gallery[..|gallery| - 1], visitor, places);
    }
  }

  /**
   Registering an exit with an appearance puts it last, after the newest of the records no older than the timeout;
   without one nothing is added, and a disabled gallery stays as it is.
   */
  lemma {:induction false} RegisterExactly(cfg: ReidSettings, gallery: seq<ExitRecord>, visitor: nat, at: real,
                                           track: Option<int>, feature: Option<Feature>, places: set<nat>)
    requires forall i: nat | i < |gallery| :: i in places <==> gallery[i].exitedAt >= at - cfg.timeout
    ensures var next, kept := Register(cfg, gallery, visitor, at, track, feature), ItemsAt(gallery, places);
      && (!cfg.enabled ==> next == gallery)
      && (cfg.enabled && feature.None? ==>
            exists d: nat :: d <= |kept| && next == kept[d..] && (d == 0 || |next| == cfg.maxEntries))
      && (cfg.enabled && feature.Some? && cfg.maxEntries > 0 ==>
            exists d: nat :: d <= |kept| && next == kept[d..] + [ExitRecord(visitor, at, feature.value, track)]
              && (d == 0 || |next| == cfg.maxEntries))
  {
    FreshExactly(gallery, at - cfg.timeout, places);
    var kept, next := ItemsAt(gallery, places), Register(cfg, gallery, visitor, at, track, feature);
    hide ItemsAt, FreshSince;
    if cfg.enabled && feature.None? {
      var d := if |kept| > cfg.maxEntries then |kept| - cfg.maxEntries else 0;
      assert next == kept[d..];
    }
    if cfg.enabled && feature.Some? && cfg.maxEntries > 0 {
      var d := if |kept| >= cfg.maxEntries then |kept| - cfg.maxEntries + 1 else 0;
      assert next == kept[d..] + [ExitRecord(visitor, at, feature.value, track)];
    }
  }

  /** How long ago the record's visitor left, and how alike it looks: both within the limits. */
  predicate WithinLimits(cfg: ReidSettings, s: Scores, r: ExitRecord, feature: Feature, now: real) {
    && r.exitedAt <= now && now <= r.exitedAt + cfg.timeout
    && cfg.threshold <= CombinedScore(cfg, s.histogram(feature, r.feature), s.cosine(feature, r.feature))
  }

  /** A match names a record within the limits, its gap, and its score raised to the floor. */
  ghost predicate IsMatch(cfg: ReidSettings, s: Scores, gallery: seq<ExitRecord>, feature: Feature, now: real, m: Match) {
    && m.record in gallery && WithinLimits(cfg, s, m.record, feature, now)
    && m.record.exitedAt + m.gap == now
    && var score := CombinedScore(cfg, s.histogram(feature, m.record.feature), s.cosine(feature, m.record.feature));
       m.confidence >= cfg.confidenceFloor && m.confidence >= score && (m.confidence == cfg.confidenceFloor || m.confidence == score)
  }

  ghost predicate NoneWithin(cfg: ReidSettings, s: Scores, gallery: seq<ExitRecord>, feature: Feature, now: real) {
    forall i | 0 <= i < |gallery| :: !WithinLimits(cfg, s, gallery[i], feature, now)
  }

  /** Nothing is matched exactly if no record is within the limits. */
  lemma {:induction false} MatchMeans(cfg: ReidSettings, s: Scores, gallery: seq<ExitRecord>, feature: Option<Feature>,
                                      now: real)
    ensures var found := MatchFor(cfg, s, gallery, feature, now);
      && (found.Some? ==> cfg.enabled && feature.Some? && IsMatch(cfg, s, gallery, feature.value, now, found.value))
      && (found.None? <==> !cfg.enabled || feature.None? || NoneWithin(cfg, s, gallery, feature.value, now))
  {
    hide CombinedScore;
    if feature.Some? {
      SearchFindsFirstBest(cfg, s, gallery, |gallery|, feature.value, now);
    }
  }

  // ---------------------------------------------------------------------------
  // One record per visitor
  // ---------------------------------------------------------------------------

  predicate InGallery(gallery: seq<ExitRecord>, visitor: nat) {
    gallery != [] && (gallery[|gallery| - 1].visitor == visitor || InGallery(gallery[..|gallery| - 1], visitor))
  }

  predicate OnePerVisitor(gallery: seq<ExitRecord>) {
    gallery == [] ||
    (!InGallery(gallery[..|gallery| - 1], gallery[|gallery| - 1].visitor) && OnePerVisitor(gallery[..|gallery| - 1]))
  }

  lemma {:induction false} Appended(gallery: seq<ExitRecord>, r: ExitRecord, v: nat)
    ensures InGallery(gallery + [r], v) <==> r.visitor == v || InGallery(gallery, v)
    ensures OnePerVisitor(gallery + [r]) <==> !InGallery(gallery, r.visitor) && OnePerVisitor(gallery)
  {
    assert (gallery + [r])[..|gallery|] == gallery;
  }

  lemma {:induction false} FreshSinceKeeps(gallery: seq<ExitRecord>, cutoff: real, v: nat)
    ensures InGallery(FreshSince(gallery, cutoff), v) ==> InGallery(gallery, v)
    ensures OnePerVisitor(gallery) ==> OnePerVisitor(FreshSince(gallery, cutoff))
    ensures |FreshSince(gallery, cutoff)| <= |gallery|
  {
    if gallery != [] {
      var front, last := gallery[..|gallery| - 1], gallery[|gallery| - 1];
      FreshSinceKeeps(front, cutoff, v);
      FreshSinceKeeps(front, cutoff, last.visitor);
      Appended(FreshSince(front, cutoff), last, v);
      assert FreshSince(front, cutoff) + [] == FreshSince(front, cutoff);
    }
  }

  lemma {:induction false} OthersKeeps(gallery: seq<ExitRecord>, visitor: nat, v: nat)
    ensures InGallery(Others(gallery, visitor), v) <==> v != visitor && InGallery(gallery, v)
    ensures OnePerVisitor(gallery) ==> OnePerVisitor(Others(gallery, visitor))
    ensures |Others(gallery, visitor)| <= |gallery|
  {
    if gallery != [] {
      var front, last := gallery[..|gallery| - 1], gallery[|gallery| - 1];
      OthersKeeps(front, visitor, v);
      OthersKeeps(front, visitor, last.visitor);
      Appended(Others(front, visitor), last, v);
      assert Others(front, visitor) + [] == Others(front, visitor);
    }
  }

  lemma {:induction false} DropKeeps(gallery: seq<ExitRecord>, d: nat, v: nat)
    requires d <= |gallery|
    ensures InGallery(gallery[d..], v) ==> InGallery(gallery, v)
    ensures OnePerVisitor(gallery) ==> OnePerVisitor(gallery[d..])
  {
    if d < |gallery| {
      var front, last := gallery[..|gallery| - 1], gallery[|gallery| - 1];
      DropKeeps(front, d, v);
      DropKeeps(front, d, last.visitor);
      Appended(front[d..], last, v);
      assert front[d..] + [last] == gallery[d..];
    }
  }

  lemma {:induction false} BoundedKeeps(gallery: seq<ExitRecord>, max: nat, v: nat)
    ensures InGallery(Bounded(gallery, max), v) ==> InGallery(gallery, v)
    ensures OnePerVisitor(gallery) ==> OnePerVisitor(Bounded(gallery, max))
    ensures |Bounded(gallery, max)| <= max
  {
    if |gallery| > max {
      DropKeeps(gallery, |gallery| - max, v);
    }
  }

  lemma {:induction false} PruneKeeps(cfg: ReidSettings, gallery: seq<ExitRecord>, now: real, v: nat)
    ensures InGallery(Prune(cfg, gallery, now), v) ==> InGallery(gallery, v)
    ensures OnePerVisitor(gallery) ==> OnePerVisitor(Prune(cfg, gallery, now))
    ensures |Prune(cfg, gallery, now)| <= cfg.maxEntries
  {
    hide InGallery, OnePerVisitor, FreshSince, Bounded;
    FreshSinceKeeps(gallery, now - cfg.timeout, v);
    BoundedKeeps(FreshSince(gallery, now - cfg.timeout), cfg.maxEntries, v);
  }

  /** Removing a visitor removes exactly that visitor, when the gallery was within its bound. */
  lemma {:induction false} RemoveKeeps(cfg: ReidSettings, gallery: seq<ExitRecord>, visitor: nat, v: nat)
    requires |gallery| <= cfg.maxEntries
    ensures InGallery(RemoveVisitor(cfg, gallery, visitor), v) <==> v != visitor && InGallery(gallery, v)
    ensures OnePerVisitor(gallery) ==> OnePerVisitor(RemoveVisitor(cfg, gallery, visitor))
    ensures |RemoveVisitor(cfg, gallery, visitor)| <= cfg.maxEntries
  {
    hide InGallery, OnePerVisitor, Others;
    OthersKeeps(gallery, visitor, v);
  }

  /** Registering adds at most that visitor, who must not be in the gallery yet. */
  lemma {:induction false} RegisterKeeps(cfg: ReidSettings, gallery: seq<ExitRecord>, visitor: nat, at: real,
                                         track: Option<int>, feature: Option<Feature>, v: nat)
    requires |gallery| <= cfg.maxEntries
    ensures var next := Register(cfg, gallery, visitor, at, track, feature);
      && (InGallery(next, v) ==> v == visitor || InGallery(gallery, v))
      && (OnePerVisitor(gallery) && !InGallery(gallery, visitor) ==> OnePerVisitor(next))
      && |next| <= cfg.maxEntries
  {
    hide InGallery, OnePerVisitor, Prune, Bounded;
    var pruned := Prune(cfg, gallery, at);
    PruneKeeps(cfg, gallery, at, v);
    PruneKeeps(cfg, gallery, at, visitor);
    if feature.Some? {
      var r := ExitRecord(visitor, at, feature.value, track);
      Appended(pruned, r, v);
      BoundedKeeps(pruned + [r], cfg.maxEntries, v);
    }
  }

  lemma {:induction false} MemberInGallery(gallery: seq<ExitRecord>, i: nat)
    requires i < |gallery|
    ensures InGallery(gallery, gallery[i].visitor)
  {
    if i < |gallery| - 1 {
      MemberInGallery(gallery[..|gallery| - 1], i);
    }
  }

  // ---------------------------------------------------------------------------
  // The gallery object
  // ---------------------------------------------------------------------------

  class LightweightReID {
    const cfg: ReidSettings
    const scores: Scores
    var memory: seq<ExitRecord>

    constructor (cfg: ReidSettings, scores: Scores)
      ensures this.cfg == cfg && this.scores == scores && memory == []
    {
      this.cfg, this.scores, memory := cfg, scores, [];
    }

    method PruneExpired(now: real)
      modifies this
      ensures memory == Prune(cfg, old(memory), now)
    {
      var cutoff := now - cfg.timeout;
      var fresh' := [];
      for i := 0 to |memory|
        invariant memory == old(memory) && fresh' == FreshSince(memory[..i], cutoff)
      {
        assert memory[..i + 1][..i] == memory[..i];
        if memory[i].exitedAt >= cutoff {
          fresh' := fresh' + [memory[i]];
        }
      }
      assert memory[..|memory|] == memory;
      memory := Bounded(fresh', cfg.maxEntries);
    }

    method RegisterExit(visitor: nat, at: real, track: Option<int>, feature: Option<Feature>) returns (stored: bool)
      modifies this
      ensures memory == Register(cfg, old(memory), visitor, at, track, feature)
      ensures stored <==> cfg.enabled && feature.Some?
    {
      if !cfg.enabled {
        return false;
      }
      PruneExpired(at);
      if feature.None? {
        return false;
      }
      memory := Push(memory, ExitRecord(visitor, at, feature.value, track), cfg.maxEntries);
      stored := true;
    }

    method Forget(visitor: nat)
      modifies this
      ensures memory == RemoveVisitor(cfg, old(memory), visitor)
    {
      var others := [];
      for i := 0 to |memory|
        invariant memory == old(memory) && others == Others(memory[..i], visitor)
      {
        assert memory[..i + 1][..i] == memory[..i];
        if memory[i].visitor != visitor {
          others := others + [memory[i]];
        }
      }
      assert memory[..|memory|] == memory;
      memory := Bounded(others, cfg.maxEntries);
    }

    /** The earliest of the most confident records within the time window and above the threshold. */
    method MatchReentry(at: real, feature: Option<Feature>) returns (found: Option<Match>)
      modifies this
      ensures memory == if cfg.enabled then Prune(cfg, old(memory), at) else old(memory)
      ensures found == MatchFor(cfg, scores, memory, feature, at)
    {
      hide Similarity, Prune;
      found := None;
      if !cfg.enabled {
        return;
      }
      PruneExpired(at);
      if feature.None? {
        return;
      }
      ghost var best: Option<nat> := None;
      for i := 0 to |memory|
        invariant memory == Prune(cfg, old(memory), at)
        invariant best == Search(cfg, scores, memory, i, feature.value, at)
        invariant found ==
          if best.None? then None else Some(MatchWith(cfg, scores, memory[best.value], feature.value, at))
      {
        var record := memory[i];
        var gap := at - record.exitedAt;
        if gap < 0.0 || gap > cfg.timeout {
          continue;
        }
        var combined := Similarity(cfg, scores, feature.value, record.feature);
        if combined < cfg.threshold {
          continue;
        }
        var confidence := if combined < cfg.confidenceFloor then cfg.confidenceFloor else combined;
        if found.None? || confidence > found.value.confidence {
          found := Some(Match(record, confidence, gap));
          best := Some(i);
        }
      }
    }
  }
}
