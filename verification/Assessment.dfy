/** The looping forms of the evaluators and of the exhaustive assessment. */
module Assessment {
  import opened Seqs
  import opened Trades
  import opened Evidence
  import opened Hypotheses
  import opened Adjudication
  import opened Investigator
  import opened Soundness

  predicate Breaks(s: Subject, cancelled: set<TradeId>, bag: Bag, cfg: Config) {
    exists p :: p in s.RebookPairSet() && p.0 in cancelled && BreaksRebook(p, bag, cfg)
  }

  function Gaps(s: Subject, cancelled: set<TradeId>): set<Missing> {
    set c | c in cancelled && !exists p :: p in s.RebookPairSet() && p.0 == c :: NeedsRebookLinkFor(c)
  }

  lemma OneMoreCancelled(s: Subject, done: set<TradeId>, c: TradeId, linked: seq<Pair>, bag: Bag, cfg: Config)
    requires forall p :: p in linked <==> p in s.RebookPairSet() && p.0 == c
    ensures Gaps(s, done + {c}) == Gaps(s, done) + if linked == [] then {NeedsRebookLinkFor(c)} else {}
    ensures Breaks(s, done + {c}, bag, cfg) <==> Breaks(s, done, bag, cfg) || exists p :: p in linked && BreaksRebook(p, bag, cfg)
  {
    assert linked != [] ==> linked[0] in linked;
    if linked == [] { assert forall p :: p in s.RebookPairSet() ==> p !in linked; }
  }

  /** `_rebook_eval`: one pass over the cancelled trades, an inner pass over their links. */
  method EvaluateRebook(s: Subject, bag: Bag, cfg: Config) returns (e: Evaluation)
    requires WellTyped(bag) && HasAll(Requirements(CancelRebookCorrection, s), bag)
    ensures GetEventSequence(s.episode.episodeId) in bag
    ensures e == RebookEval(s, bag, cfg)
  {
    assert GetEventSequence(s.episode.episodeId) in Requirements(CancelRebookCorrection, s);
    var pairs := s.RebookPairs();
    var cancelled := Cancelled(s.episode.episodeId, bag);
    var contradicted, gaps := false, {};
    var todo := cancelled;
    while todo != {}
      invariant todo <= cancelled
      invariant contradicted == Breaks(s, cancelled - todo, bag, cfg)
      invariant gaps == Gaps(s, cancelled - todo)
    {
      var c :| c in todo;
      var linked := Filter(pairs, (p: Pair) => p.0 == c);
      OneMoreCancelled(s, cancelled - todo, c, linked, bag, cfg);
      assert cancelled - (todo - {c}) == cancelled - todo + {c};
      if linked == [] { gaps := gaps + {NeedsRebookLinkFor(c)}; }
      contradicted := AnyBreaks(linked, bag, cfg, contradicted);
      todo := todo - {c};
    }
    assert cancelled - todo == cancelled;
    e := Verdict(contradicted, gaps);
  }

  method AnyBreaks(linked: seq<Pair>, bag: Bag, cfg: Config, before: bool) returns (found: bool)
    ensures found <==> before || exists p :: p in linked && BreaksRebook(p, bag, cfg)
  {
    found := before;
    for i := 0 to |linked|
      invariant found <==> before || exists p :: p in linked[..i] && BreaksRebook(p, bag, cfg)
    {
      assert linked[..i + 1] == linked[..i] + [linked[i]];
      if BreaksRebook(linked[i], bag, cfg) { found := true; }
    }
    assert linked[..|linked|] == linked;
  }

  /** `_deviation_split`: one pass collecting what benign hypotheses cover or could cover. */
  method SplitDeviations(ranked: seq<Assessed>, covers: Explains) returns (r: Split)
    ensures r == DeviationSplit(ranked, covers)
  {
    var deviating, covered, could := {}, {}, {};
    for i := 0 to |ranked|
      invariant deviating == Deviating(ranked[..i])
      invariant covered == Covered(ranked[..i], Supported, covers)
      invariant could == Covered(ranked[..i], Insufficient, covers)
    {
      var h := ranked[i];
      LastSplit(ranked[..i], h, covers);
      assert ranked[..i + 1] == ranked[..i] + [h];
      if Residual(h.typ) && h.eval.status == Supported { deviating := deviating + h.eval.signals; }
      if ClassOf(h.typ) == Benign {
        if h.eval.status == Supported { covered := covered + CoveredBy(h.typ, covers); }
        else if h.eval.status == Insufficient { could := could + CoveredBy(h.typ, covers); }
      }
    }
    assert ranked[..|ranked|] == ranked;
    r := Split(deviating - covered - could, deviating * covered, (deviating - covered) * could);
  }

  lemma LastSplit(rs: seq<Assessed>, h: Assessed, covers: Explains)
    ensures Deviating(rs + [h]) == Deviating(rs) + if SupportedResidual(h) then h.eval.signals else {}
    ensures forall st :: Covered(rs + [h], st, covers)
                      == Covered(rs, st, covers) + if Has(h, st, Benign) then CoveredBy(h.typ, covers) else {}
  {
    forall st
      ensures Covered(rs + [h], st, covers) == Covered(rs, st, covers) + if Has(h, st, Benign) then CoveredBy(h.typ, covers) else {}
    {
      LastCovered(rs, h, st, covers);
    }
  }

  lemma LastCovered(rs: seq<Assessed>, h: Assessed, st: Status, covers: Explains)
    ensures Covered(rs + [h], st, covers) == Covered(rs, st, covers) + if Has(h, st, Benign) then CoveredBy(h.typ, covers) else {}
  {
    assert forall r :: r in rs + [h] <==> r in rs || r == h;
  }

  ghost predicate Fetchable(t: HypType, w: Snapshot, subject: Subject) {
    Applies(t, subject, w.cfg) ==> HasAll(Requirements(t, subject), w.views)
  }

  /** What must be fetchable for the assessment of an episode not to raise. */
  ghost predicate Assessable(w: Snapshot, e: EpisodeId) {
    Known(w, e) && forall t :: Fetchable(t, w, FullSubject(w, e, w.links))
  }

  /** `assess`: every applicable hypothesis in catalog order, fetching what each still needs.
      A tool that fails makes the whole assessment fail. */
  method Assess(w: Snapshot, e: EpisodeId) returns (r: Option<Outcome>)
    requires WellTyped(w.views)
    ensures r.Some? <==> Assessable(w, e)
    ensures r.Some? ==> r.value == FullAssessment(w, e, w.links)
  {
    if GetEpisode(e) !in w.views { return None; }
    assert Fits(GetEpisode(e), w.views[GetEpisode(e)]);
    var subject := Subject(w.views[GetEpisode(e)].episode, w.links, w.unavailable);
    assert subject == FullSubject(w, e, w.links);
    var results := AssessIn(CATALOG, w, subject);
    forall t: HypType ensures t in CATALOG { CatalogIsComplete(t); }
    if results.None? {
      ghost var t :| t in CATALOG && !Fetchable(t, w, subject);
      return None;
    }
    return Some(Adjudicate(results.value, w.cfg.explains));
  }

  /** The results so far and one more, followed by the rest. */
  lemma AssessFrom(order: seq<HypType>, i: nat, subject: Subject, views: Bag, cfg: Config, before: seq<Assessed>)
    requires i < |order| && subject.episode.tradeIds != [] && WellTyped(views)
    ensures (before + AssessOne(order[i], subject, views, cfg)) + AssessAll(order[i + 1..], subject, views, cfg)
            == before + AssessAll(order[i..], subject, views, cfg)
  {
    assert order[i..][0] == order[i] && order[i..][1..] == order[i + 1..];
    Regroup(before, AssessOne(order[i], subject, views, cfg), AssessAll(order[i + 1..], subject, views, cfg));
  }

  method AssessIn(order: seq<HypType>, w: Snapshot, subject: Subject) returns (r: Option<seq<Assessed>>)
    requires WellTyped(w.views) && subject.episode.tradeIds != []
    ensures r.Some? <==> forall t :: t in order ==> Fetchable(t, w, subject)
    ensures r.Some? ==> r.value == AssessAll(order, subject, w.views, w.cfg)
  {
    var bag: Bag := map[];
    var results: seq<Assessed> := [];
    for i := 0 to |order|
      invariant Within(bag, w.views) && WellTyped(bag)
      invariant results + AssessAll(order[i..], subject, w.views, w.cfg) == AssessAll(order, subject, w.views, w.cfg)
      invariant forall j :: 0 <= j < i ==> Fetchable(order[j], w, subject)
    {
      AssessFrom(order, i, subject, w.views, w.cfg, results);
      var one, ok;
      bag, one, ok := AssessNext(order[i], w, subject, bag);
      if !ok {
        assert order[i] in order;
        return None;
      }
      results := results + one;
    }
    assert order[|order|..] == [];
    return Some(results);
  }

  method AssessNext(t: HypType, w: Snapshot, subject: Subject, before: Bag) returns (bag: Bag, one: seq<Assessed>, ok: bool)
    requires WellTyped(w.views) && Within(before, w.views) && WellTyped(before) && subject.episode.tradeIds != []
    ensures Within(bag, w.views) && WellTyped(bag)
    ensures ok <==> Fetchable(t, w, subject)
    ensures ok ==> one == AssessOne(t, subject, w.views, w.cfg)
  {
    if !Applies(t, subject, w.cfg) { return before, [], true; }
    bag, ok := FetchAll(w, Requirements(t, subject), before);
    if ok {
      MoreEvidenceKeepsEvaluation(t, subject, bag, w.views, w.cfg);
      one := [Assessed(t, Evaluate(t, subject, bag, w.cfg))];
    } else {
      one := [];
    }
  }

  method FetchAll(w: Snapshot, rs: seq<Request>, before: Bag) returns (bag: Bag, ok: bool)
    requires WellTyped(w.views) && Within(before, w.views) && WellTyped(before)
    ensures ok <==> HasAll(rs, w.views)
    ensures Within(bag, w.views) && WellTyped(bag) && (ok ==> HasAll(rs, bag))
  {
    bag := before;
    for i := 0 to |rs|
      invariant Within(bag, w.views) && WellTyped(bag)
      invariant forall j :: 0 <= j < i ==> rs[j] in bag
    {
      if rs[i] !in bag {
        if rs[i] !in w.views { return bag, false; }
        bag := bag[rs[i] := w.views[rs[i]]];
      }
    }
    ok := true;
  }
}
