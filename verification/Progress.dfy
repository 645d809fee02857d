/**
 When an approved plan makes progress. A consolidation appends an event to both histories; a bet
 whose history no longer fits is read back under its account's house, so the totals of the chunk
 can move between houses and the check after it can refuse the job's own work.
 */
module Progress {
  import opened Wrappers
  import opened Ordering
  import opened Sources
  import opened Matching
  import opened Money
  import opened Plan
  import opened Applying

  // ---------------------------------------------------------------- where a bet ends up

  /** One bet after a stretch of candidates. */
  function Landing(s: Source, candidates: seq<Candidate>, decisions: seq<Decision>): Source
    decreases |candidates|
  {
    if candidates == [] || decisions == [] then
      s
    else
      var here := Wants(candidates[0].judgement) && decisions[0].Acceptance?;
      Landing(if here then Consolidated(s, candidates[0], decisions[0]) else s, candidates[1..], decisions[1..])
  }

  lemma {:induction false} ApplyAllLands(content: Content, candidates: seq<Candidate>, decisions: seq<Decision>)
    requires ApplyAll(content, candidates, decisions).Some?
    ensures var after := ApplyAll(content, candidates, decisions).value.items;
            && |after| == |content.items|
            && forall i :: 0 <= i < |after| ==> after[i] == Landing(content.items[i], candidates, decisions)
    decreases |candidates|
  {
    hide Consolidated;
    if candidates != [] {
      var next := ApplyOne(content, candidates[0], decisions[0]).value;
      ApplyAllLands(next, candidates[1..], decisions[1..]);
    }
  }

  predicate Displaced(s: Source, candidates: seq<Candidate>, decisions: seq<Decision>) {
    Landing(s, candidates, decisions).house != s.house
  }

  /** What the displaced bets bring to `house`, less what they take from it. */
  function Drift(items: seq<Source>, candidates: seq<Candidate>, decisions: seq<Decision>, suppressed: set<nat>, house: string): Metrics {
    if items == [] then
      ZERO
    else
      var s := items[|items| - 1];
      var rest := Drift(items[..|items| - 1], candidates, decisions, suppressed, house);
      if !Displaced(s, candidates, decisions) then rest
      else if Landing(s, candidates, decisions).house == house then rest.Plus(Share(s, suppressed))
      else if s.house == house then rest.Minus(Share(s, suppressed))
      else rest
  }

  /** Displaced bets cancel out, house by house. Without displaced bets they do. */
  ghost predicate Balanced(items: seq<Source>, candidates: seq<Candidate>, decisions: seq<Decision>, suppressed: set<nat>) {
    forall house :: Drift(items, candidates, decisions, suppressed, house) == ZERO
  }

  lemma SameShare(a: Source, b: Source, suppressed: set<nat>)
    requires a.id == b.id && SameMoney(a.bet, b.bet)
    ensures Share(a, suppressed) == Share(b, suppressed)
  {
  }

  lemma {:induction false} RowsDrift(after: seq<Source>, items: seq<Source>, candidates: seq<Candidate>, decisions: seq<Decision>,
                                     suppressed: set<nat>, house: string)
    requires |after| == |items|
    requires forall i :: 0 <= i < |items| ==> after[i] == Landing(items[i], candidates, decisions)
    requires forall i :: 0 <= i < |items| ==> after[i].id == items[i].id && SameMoney(after[i].bet, items[i].bet)
    ensures Row(Totals(after, suppressed), house)
            == Row(Totals(items, suppressed), house).Plus(Drift(items, candidates, decisions, suppressed, house))
  {
    hide Totals, Row, Share, Landing, SameMoney;
    hide Metrics.Plus, Metrics.Minus;
    if items == [] {
      NoRows(suppressed, house);
      assert after == [];
    } else {
      var n := |items| - 1;
      RowsDrift(after[..n], items[..n], candidates, decisions, suppressed, house);
      RowOneMore(after, suppressed, house);
      RowOneMore(items, suppressed, house);
      SameShare(after[n], items[n], suppressed);
      MoveShare(Row(Totals(items[..n], suppressed), house), Drift(items[..n], candidates, decisions, suppressed, house),
                Share(items[n], suppressed));
    }
  }

  lemma MoveShare(row: Metrics, drift: Metrics, share: Metrics)
    ensures row.Plus(drift).Plus(share) == row.Plus(share).Plus(drift) == row.Plus(drift.Plus(share))
    ensures row.Plus(drift) == row.Plus(share).Plus(drift.Minus(share))
  {
  }

  lemma ShareIsOneBet(s: Source, suppressed: set<nat>)
    ensures Share(s, suppressed).bets == 1
  {
  }

  lemma NoRows(suppressed: set<nat>, house: string)
    ensures Row(Totals([], suppressed), house) == ZERO == ZERO.Plus(ZERO)
  {
  }

  lemma {:induction false} ListedHasBets(items: seq<Source>, suppressed: set<nat>, house: string)
    ensures house in Totals(items, suppressed) <==> Row(Totals(items, suppressed), house).bets >= 1
    ensures Row(Totals(items, suppressed), house).bets >= 0
  {
    hide Contribution, Share;
    if items != [] {
      ShareIsOneBet(items[|items| - 1], suppressed);
      ListedHasBets(items[..|items| - 1], suppressed, house);
    }
  }

  /** Two ledgers of totals are equal when their rows are: a house is listed exactly when it has bets. */
  lemma SameRowsSameTotals(a: seq<Source>, b: seq<Source>, suppressed: set<nat>)
    requires forall house :: Row(Totals(a, suppressed), house) == Row(Totals(b, suppressed), house)
    ensures Totals(a, suppressed) == Totals(b, suppressed)
  {
    hide Totals;
    forall house ensures house in Totals(a, suppressed) <==> house in Totals(b, suppressed) {
      ListedHasBets(a, suppressed, house);
      ListedHasBets(b, suppressed, house);
    }
    assert forall house :: house in Totals(a, suppressed) ==>
             Totals(a, suppressed)[house] == Row(Totals(a, suppressed), house) == Totals(b, suppressed)[house];
  }

  lemma TotalsBalance(after: seq<Source>, items: seq<Source>, candidates: seq<Candidate>, decisions: seq<Decision>, suppressed: set<nat>)
    requires |after| == |items|
    requires forall i :: 0 <= i < |items| ==> after[i] == Landing(items[i], candidates, decisions)
    requires forall i :: 0 <= i < |items| ==> after[i].id == items[i].id && SameMoney(after[i].bet, items[i].bet)
    ensures Totals(after, suppressed) == Totals(items, suppressed) <==> Balanced(items, candidates, decisions, suppressed)
  {
    hide Totals, Row, Landing, SameMoney, Drift;
    forall house
      ensures Row(Totals(after, suppressed), house)
              == Row(Totals(items, suppressed), house).Plus(Drift(items, candidates, decisions, suppressed, house))
    {
      RowsDrift(after, items, candidates, decisions, suppressed, house);
    }
    if Balanced(items, candidates, decisions, suppressed) {
      SameRowsSameTotals(after, items, suppressed);
    }
  }

  // ---------------------------------------------------------------- the plan continued from a checkpoint

  /** The stretch of candidates that the next chunk applies. */
  function NextStretch(rv: Reviewed, journal: seq<Chunk>): seq<Candidate>
    requires Offset(journal) <= |rv.report.candidates|
  {
    rv.report.candidates[Offset(journal)..End(rv, Offset(journal))]
  }

  /** Bets that no earlier candidate touched are read as when the plan was approved. */
  lemma UntouchedTip(rv: Reviewed, e: Engine, content: Content, offset: nat, k: nat) returns (t: Source)
    requires Approved(rv, e) && offset <= k < |rv.report.candidates|
    requires Edited(content.items, rv.mark.items, Ends(rv.report.candidates[..offset]))
    requires Wants(rv.report.candidates[k].judgement)
    ensures var c := rv.report.candidates[k];
            && t in content.items && t.id == c.tipId && t.house == c.house && Contribution(t) == c.removed
            && Counts(t, SuppressedTips(rv.mark.links) + TakenTips(rv.report.candidates[..k]))
  {
    hide Candidates, Contribution, SuppressedTips;
    var c := rv.report.candidates;
    t := WantedTip(rv.mark.items, rv.mark.links, rv.filters, e, c[k]);
    FreshTip(rv.mark.items, rv.mark.links, rv.filters, e, k);
    FreshEnds(rv, e, offset, k);
    var i :| 0 <= i < |rv.mark.items| && rv.mark.items[i] == t;
    assert content.items[i] == t;
  }

  lemma FreshEnds(rv: Reviewed, e: Engine, offset: nat, k: nat)
    requires Approved(rv, e) && offset <= k < |rv.report.candidates| && Wants(rv.report.candidates[k].judgement)
    ensures var c := rv.report.candidates; c[k].tipId !in Ends(c[..offset]) && c[k].houseId !in Ends(c[..offset])
  {
    hide Candidates;
    var c := rv.report.candidates;
    forall i | 0 <= i < offset && Wants(c[i].judgement)
      ensures c[i].tipId != c[k].tipId && c[i].houseId != c[k].tipId
      ensures c[i].tipId != c[k].houseId && c[i].houseId != c[k].houseId
    {
      EndsApart(rv.mark.items, rv.mark.links, rv.filters, e, i, k);
    }
  }

  lemma EditedScanned(after: seq<Source>, before: seq<Source>, ids: set<nat>)
    requires Scanned(before) && Edited(after, before, ids)
    ensures Scanned(after)
  {
  }

  /** From a checkpoint on, the plan's totals are those of the checkpoint's own bets, were no house to change. */
  lemma {:induction false} PlanContinues(rv: Reviewed, e: Engine, content: Content, offset: nat, k: nat)
    requires Approved(rv, e) && offset <= k <= |rv.report.candidates|
    requires Edited(content.items, rv.mark.items, Ends(rv.report.candidates[..offset]))
    requires Totals(content.items, SuppressedTips(rv.mark.links) + TakenTips(rv.report.candidates[..offset]))
             == ExpectedAt(rv, offset)
    ensures Totals(content.items, SuppressedTips(rv.mark.links) + TakenTips(rv.report.candidates[..k])) == ExpectedAt(rv, k)
  {
    hide Approved, Sub, Contribution, Totals, Edited, Ends, SuppressedTips, TakenTips, ExpectedAt;
    if k > offset {
      PlanContinues(rv, e, content, offset, k - 1);
      WithheldStep(rv, e, content, offset, k - 1);
      ExpectedStep(rv, k - 1);
    }
  }

  /** The next candidate, if wanted, takes its contribution out of the totals of the checkpoint's bets. */
  lemma WithheldStep(rv: Reviewed, e: Engine, content: Content, offset: nat, k: nat)
    requires Approved(rv, e) && offset <= k < |rv.report.candidates|
    requires Edited(content.items, rv.mark.items, Ends(rv.report.candidates[..offset]))
    ensures var c := rv.report.candidates; var withheld := SuppressedTips(rv.mark.links);
            Totals(content.items, withheld + TakenTips(c[..k + 1]))
            == if Wants(c[k].judgement)
               then Sub(Totals(content.items, withheld + TakenTips(c[..k])), c[k].house, c[k].removed)
               else Totals(content.items, withheld + TakenTips(c[..k]))
  {
    hide MakeReport, Sub, Contribution, Totals, Edited, Ends, SuppressedTips, TakenTips;
    var c, withheld := rv.report.candidates, SuppressedTips(rv.mark.links);
    TakenStep(c, k);
    if Wants(c[k].judgement) {
      var t := UntouchedTip(rv, e, content, offset, k);
      EditedScanned(content.items, rv.mark.items, Ends(c[..offset]));
      SuppressOne(content.items, withheld + TakenTips(c[..k]), t);
      assert withheld + (TakenTips(c[..k]) + {t.id}) == withheld + TakenTips(c[..k]) + {t.id};
    } else {
      assert withheld + (TakenTips(c[..k]) + {}) == withheld + TakenTips(c[..k]);
    }
  }

  lemma ExpectedStep(rv: Reviewed, k: nat)
    requires k < |rv.report.candidates|
    ensures var c := rv.report.candidates[k];
            ExpectedAt(rv, k + 1)
            == if Wants(c.judgement) then Sub(ExpectedAt(rv, k), c.house, c.removed) else ExpectedAt(rv, k)
  {
    assert rv.report.candidates[..k + 1][..k] == rv.report.candidates[..k];
  }

  // ---------------------------------------------------------------- when the job's own work commits

  /** Bets withheld from the totals once the next chunk is applied. */
  function WithheldAfter(db: Db, rv: Reviewed): set<nat>
    requires Offset(db.journal) <= |rv.report.candidates|
  {
    SuppressedTips(db.content.links) + TakenTips(NextStretch(rv, db.journal))
  }

  /** The check after the next chunk passes exactly when the bets it displaces cancel out. */
  lemma CheckAfterExactly(db: Db, rv: Reviewed, e: Engine, fate: Fate)
    requires Approved(rv, e) && JournalSound(rv, db.journal)
    requires db.content == Checkpoint(rv, db.journal) && Offset(db.journal) <= |rv.report.candidates|
    requires ApplyAll(db.content.(rest := fate.prepared), NextStretch(rv, db.journal), fate.decisions).Some?
    ensures Observed(db.content) == ExpectedAt(rv, Offset(db.journal))
    ensures Observed(ApplyAll(db.content.(rest := fate.prepared), NextStretch(rv, db.journal), fate.decisions).value)
            == ExpectedAt(rv, End(rv, Offset(db.journal)))
            <==> Balanced(db.content.items, NextStretch(rv, db.journal), fate.decisions, WithheldAfter(db, rv))
  {
    hide MakeReport, ApplyAll, ExpectedAt, Expected, JournalSound, Approved, SuppressedTips, TakenTips, Ends, Balanced, Landing, WantedPairs;
    hide Totals, Edited, SameMoney;
    var c, offset := rv.report.candidates, Offset(db.journal);
    var end := End(rv, offset);
    var start := db.content.(rest := fate.prepared);
    var done := ApplyAll(start, c[offset..end], fate.decisions).value;
    JournalEffect(rv, db.journal);
    CheckpointTotals(rv, e, db.journal);
    SplitAt(c, offset, end);
    PlanContinues(rv, e, db.content, offset, end);
    ApplyAllEffect(start, c[offset..end], fate.decisions);
    ApplyAllLands(start, c[offset..end], fate.decisions);
    EditedMoney(done.items, start.items, Ends(c[offset..end]));
    TotalsBalance(done.items, db.content.items, c[offset..end], fate.decisions, WithheldAfter(db, rv));
    var withheld := SuppressedTips(rv.mark.links);
    assert withheld + (TakenTips(c[..offset]) + TakenTips(c[offset..end]))
           == withheld + TakenTips(c[..offset]) + TakenTips(c[offset..end]);
  }

  lemma EditedMoney(after: seq<Source>, before: seq<Source>, ids: set<nat>)
    requires Edited(after, before, ids)
    ensures |after| == |before|
    ensures forall i :: 0 <= i < |before| ==> after[i].id == before[i].id && SameMoney(after[i].bet, before[i].bet)
  {
    hide SameMoney;
  }

  /**
   With no foreign writer and an accepting service, an unfinished job commits its next chunk exactly
   when the bets that the chunk displaces cancel out in every house. Committing moves the offset to
   the end of the batch, which is further exactly when candidates were left.
   */
  lemma OwnWorkCommitsExactly(db: Db, rv: Reviewed, e: Engine, fate: Fate)
    requires Approved(rv, e) && JournalSound(rv, db.journal)
    requires db.content == Checkpoint(rv, db.journal) && Offset(db.journal) <= |rv.report.candidates|
    requires !Complete(rv, db.journal) && fate.commits
    requires ApplyAll(db.content.(rest := fate.prepared), NextStretch(rv, db.journal), fate.decisions).Some?
    ensures Attempt(db, rv, e, fate).Committed?
            <==> Balanced(db.content.items, NextStretch(rv, db.journal), fate.decisions, WithheldAfter(db, rv))
    ensures Attempt(db, rv, e, fate).Committed? ==>
              var after := Attempt(db, rv, e, fate).db.journal;
              && Offset(after) == End(rv, Offset(db.journal))
              && (Offset(db.journal) < Offset(after) <==> Offset(db.journal) < |rv.report.candidates|)
  {
    hide MakeReport, ApplyAll, Observed, ExpectedAt, JournalSound, Approved, Balanced, WithheldAfter;
    LastBatch(rv, db.journal);
    CheckAfterExactly(db, rv, e, fate);
    ReportStands(rv, e);
  }

  lemma ReportStands(rv: Reviewed, e: Engine)
    requires Approved(rv, e)
    ensures MakeReport(rv.mark.items, rv.mark.links, rv.filters, e) == rv.report && rv.batch >= 1
  {
  }

  lemma LastBatch(rv: Reviewed, journal: seq<Chunk>)
    requires JournalSound(rv, journal)
    ensures journal != [] ==> journal[|journal| - 1].batch == rv.batch
  {
    if journal != [] {
      assert RowSound(rv, journal, |journal| - 1);
    }
  }

  // ---------------------------------------------------------------- histories with room

  /** Every bet that `candidates` would consolidate can take one more event. */
  ghost predicate RoomLeft(items: seq<Source>, candidates: seq<Candidate>) {
    forall s :: s in items && s.id in Ends(candidates) ==> s.events < MAX_HISTORY
  }

  /** No bet is an end of two candidates to consolidate. */
  ghost predicate EndsOnce(candidates: seq<Candidate>) {
    forall i, j :: 0 <= i < j < |candidates| && Wants(candidates[i].judgement) && Wants(candidates[j].judgement) ==>
      && candidates[i].houseId != candidates[j].houseId && candidates[i].tipId != candidates[j].tipId
      && candidates[i].houseId != candidates[j].tipId && candidates[i].tipId != candidates[j].houseId
  }

  lemma {:induction false} UntouchedLands(s: Source, candidates: seq<Candidate>, decisions: seq<Decision>)
    requires s.id !in Ends(candidates)
    ensures Landing(s, candidates, decisions) == s
    decreases |candidates|
  {
    if candidates != [] && decisions != [] {
      hide Reread;
      assert candidates == [candidates[0]] + candidates[1..];
      assert candidates[0] in candidates;
      UntouchedLands(s, candidates[1..], decisions[1..]);
    }
  }

  /** Room for one event is enough, because no bet is consolidated twice. */
  lemma {:induction false} RoomKeepsHouse(s: Source, candidates: seq<Candidate>, decisions: seq<Decision>)
    requires EndsOnce(candidates) && s.events < MAX_HISTORY
    ensures !Displaced(s, candidates, decisions)
    decreases |candidates|
  {
    if candidates != [] && decisions != [] {
      var c, rest := candidates[0], candidates[1..];
      assert forall i :: 0 <= i < |rest| ==> rest[i] == candidates[i + 1];
      if Wants(c.judgement) && decisions[0].Acceptance? && (s.id == c.houseId || s.id == c.tipId) {
        UntouchedLands(Consolidated(s, c, decisions[0]), rest, decisions[1..]);
      } else {
        RoomKeepsHouse(s, rest, decisions[1..]);
      }
    }
  }

  lemma {:induction false} NothingDisplaced(items: seq<Source>, candidates: seq<Candidate>, decisions: seq<Decision>,
                                            suppressed: set<nat>, house: string)
    requires forall s :: s in items ==> !Displaced(s, candidates, decisions)
    ensures Drift(items, candidates, decisions, suppressed, house) == ZERO
  {
    hide Displaced;
    if items != [] {
      NothingDisplaced(items[..|items| - 1], candidates, decisions, suppressed, house);
    }
  }

  lemma RoomBalances(items: seq<Source>, candidates: seq<Candidate>, decisions: seq<Decision>, suppressed: set<nat>)
    requires EndsOnce(candidates) && RoomLeft(items, candidates)
    ensures Balanced(items, candidates, decisions, suppressed)
  {
    hide Drift, Displaced, EndsOnce, Ends;
    forall s | s in items ensures !Displaced(s, candidates, decisions) {
      if s.id in Ends(candidates) {
        RoomKeepsHouse(s, candidates, decisions);
      } else {
        UntouchedLands(s, candidates, decisions);
        assert !Displaced(s, candidates, decisions) by { NotMoved(s, candidates, decisions); }
      }
    }
    forall house ensures Drift(items, candidates, decisions, suppressed, house) == ZERO {
      NothingDisplaced(items, candidates, decisions, suppressed, house);
    }
  }

  lemma NotMoved(s: Source, candidates: seq<Candidate>, decisions: seq<Decision>)
    requires Landing(s, candidates, decisions) == s
    ensures !Displaced(s, candidates, decisions)
  {
  }

  lemma StretchEndsOnce(rv: Reviewed, e: Engine, from: nat, to: nat)
    requires Approved(rv, e) && from <= to <= |rv.report.candidates|
    ensures EndsOnce(rv.report.candidates[from..to])
  {
    hide Candidates;
    var c := rv.report.candidates;
    forall i, j | 0 <= i < j < to - from && Wants(c[from..to][i].judgement) && Wants(c[from..to][j].judgement)
      ensures c[from..to][i].houseId != c[from..to][j].houseId && c[from..to][i].tipId != c[from..to][j].tipId
      ensures c[from..to][i].houseId != c[from..to][j].tipId && c[from..to][i].tipId != c[from..to][j].houseId
    {
      EndsApart(rv.mark.items, rv.mark.links, rv.filters, e, from + i, from + j);
    }
  }

  /** Room in the approved rows is room at every checkpoint. */
  lemma RoomStays(rv: Reviewed, e: Engine, journal: seq<Chunk>)
    requires Approved(rv, e) && JournalSound(rv, journal) && Offset(journal) <= |rv.report.candidates|
    requires RoomLeft(rv.mark.items, rv.report.candidates)
    ensures RoomLeft(Checkpoint(rv, journal).items, NextStretch(rv, journal))
  {
    hide Approved, JournalSound, Pairs, WantedPairs, SuppressedTips;
    JournalEffect(rv, journal);
    var c, now, offset := rv.report.candidates, Checkpoint(rv, journal).items, Offset(journal);
    forall s | s in now && s.id in Ends(NextStretch(rv, journal)) ensures s.events < MAX_HISTORY {
      var x :| x in NextStretch(rv, journal) && Wants(x.judgement) && (x.tipId == s.id || x.houseId == s.id);
      var k :| offset <= k < |c| && c[k] == x;
      FreshEnds(rv, e, offset, k);
      var i :| 0 <= i < |now| && now[i] == s;
      assert rv.mark.items[i] == s && s in rv.mark.items;
      assert c[k] in c;
    }
  }

  /** An approving service never stops the plan's own candidates. */
  lemma {:induction false} AcceptedChunkApplies(content: Content, candidates: seq<Candidate>, decisions: seq<Decision>)
    requires |decisions| >= |candidates|
    requires forall i :: 0 <= i < |decisions| ==> decisions[i].Acceptance?
    requires forall c :: c in candidates && Wants(c.judgement) ==> c.judgement.classification.Exact?
    ensures ApplyAll(content, candidates, decisions).Some?
    decreases |candidates|
  {
    if candidates != [] {
      var next := ApplyOne(content, candidates[0], decisions[0]);
      AcceptedChunkApplies(next.value, candidates[1..], decisions[1..]);
    }
  }

  /** An attempt that nothing outside the program disturbs. */
  predicate Undisturbed(fate: Fate, batch: nat) {
    fate.commits && |fate.decisions| >= batch
    && forall i :: 0 <= i < |fate.decisions| ==> fate.decisions[i].Acceptance?
  }

  function UndisturbedCount(events: seq<Event>, batch: nat): nat {
    if events == [] then
      0
    else
      var last := events[|events| - 1];
      UndisturbedCount(events[..|events| - 1], batch)
      + if last.Try? && Undisturbed(last.fate, batch) then 1 else 0
  }

  lemma UndisturbedApplies(db: Db, rv: Reviewed, e: Engine, fate: Fate)
    requires Approved(rv, e) && Offset(db.journal) <= |rv.report.candidates| && Undisturbed(fate, rv.batch)
    ensures ApplyAll(db.content.(rest := fate.prepared), NextStretch(rv, db.journal), fate.decisions).Some?
  {
    hide Candidates, ApplyAll;
    forall x | x in NextStretch(rv, db.journal) && Wants(x.judgement) ensures x.judgement.classification.Exact? {
      WantedIsExact(rv.mark.items, rv.mark.links, rv.filters, e, x);
    }
    AcceptedChunkApplies(db.content.(rest := fate.prepared), NextStretch(rv, db.journal), fate.decisions);
  }

  /** While the histories of the plan's bets have room, an undisturbed attempt commits. */
  lemma UndisturbedCommits(db: Db, rv: Reviewed, e: Engine, fate: Fate)
    requires Approved(rv, e) && JournalSound(rv, db.journal) && !Complete(rv, db.journal)
    requires db.content == Checkpoint(rv, db.journal) && Offset(db.journal) <= |rv.report.candidates|
    requires RoomLeft(rv.mark.items, rv.report.candidates) && Undisturbed(fate, rv.batch)
    ensures Attempt(db, rv, e, fate).Committed?
  {
    hide Attempt, Approved, JournalSound, ApplyAll, RoomLeft, Balanced, EndsOnce;
    UndisturbedApplies(db, rv, e, fate);
    RoomStays(rv, e, db.journal);
    StretchEndsOnce(rv, e, Offset(db.journal), End(rv, Offset(db.journal)));
    RoomBalances(db.content.items, NextStretch(rv, db.journal), fate.decisions, WithheldAfter(db, rv));
    OwnWorkCommitsExactly(db, rv, e, fate);
  }

  /**
   Progress under any schedule of crashes, refusals and stops: each undisturbed attempt commits
   one more row until the plan is complete.
   */
  lemma {:induction false} UndisturbedAttemptsProgress(db: Db, rv: Reviewed, e: Engine, events: seq<Event>)
    requires Approved(rv, e) && db.journal == [] && db.content == rv.mark
    requires RoomLeft(rv.mark.items, rv.report.candidates)
    requires forall i :: 0 <= i < |events| ==> events[i].Try?
    ensures var r := Run(db, rv, e, events);
            && JournalSound(rv, r.journal) && r.content == Checkpoint(rv, r.journal)
            && (Complete(rv, r.journal) || |r.journal| >= UndisturbedCount(events, rv.batch))
  {
    if events != [] {
      hide Attempt, RowSound, Undisturbed, Approved, RoomLeft;
      var n := |events| - 1;
      var before := Run(db, rv, e, events[..n]);
      UndisturbedAttemptsProgress(db, rv, e, events[..n]);
      OffsetInRange(rv, before.journal);
      var fate := events[n].fate;
      if Attempt(before, rv, e, fate).Committed? {
        AttemptKeepsJournalSound(before, rv, e, fate);
      } else if Undisturbed(fate, rv.batch) && !Complete(rv, before.journal) {
        UndisturbedCommits(before, rv, e, fate);
      }
    }
  }

  /** Enough undisturbed attempts finish the plan: one per batch, and one even for an empty plan. */
  lemma EnoughAttemptsComplete(db: Db, rv: Reviewed, e: Engine, events: seq<Event>)
    requires Approved(rv, e) && db.journal == [] && db.content == rv.mark
    requires RoomLeft(rv.mark.items, rv.report.candidates)
    requires forall i :: 0 <= i < |events| ==> events[i].Try?
    requires UndisturbedCount(events, rv.batch) >= 1
    requires UndisturbedCount(events, rv.batch) * rv.batch >= |rv.report.candidates|
    ensures Complete(rv, Run(db, rv, e, events).journal)
    ensures Pairs(Run(db, rv, e, events).content.links) == Pairs(rv.mark.links) + WantedPairs(rv.report.candidates)
    ensures Observed(Run(db, rv, e, events).content) == rv.report.projected
  {
    hide Run, RowSound, Approved, RoomLeft, Pairs, WantedPairs, Observed, UndisturbedCount, Edited, Ends;
    var r := Run(db, rv, e, events);
    var done := UndisturbedCount(events, rv.batch);
    UndisturbedAttemptsProgress(db, rv, e, events);
    ChunkOffsets(rv, r.journal);
    if |r.journal| >= done {
      EnoughRows(rv, r.journal, done);
    }
    CompleteRunEqualsOnePass(db, rv, e, events);
    CompleteIsProjected(rv, e, r.journal);
  }

  lemma EnoughRows(rv: Reviewed, journal: seq<Chunk>, done: nat)
    requires |journal| >= done >= 1 && done * rv.batch >= |rv.report.candidates|
    requires Offset(journal) == Min(|journal| * rv.batch, |rv.report.candidates|)
    ensures Complete(rv, journal)
  {
  }

  // ---------------------------------------------------------------- how each consolidated bet ends

  /**
   A bet that was consolidated once, on the house side or not: one event more, and nothing else but
   account and tipster on the house side, unless its history was full. Then it has no state any more.
   */
  ghost predicate Landed(s: Source, after: Source, house: bool, d: Decision)
    requires d.Acceptance?
  {
    && after.id == s.id && after.events == s.events + 1 && after.occurrence == s.occurrence
    && after.bet == (if house then s.bet.(tipsterId := d.tipsterId) else s.bet)
    && after.accountHouse == (if house then d.accountHouse else s.accountHouse)
    && (s.events < 1000 ==>
          && after.house == s.house && after.error == s.error && after.game == s.game && after.evidence == s.evidence
          && after.tipster == if house then d.tipster else s.tipster)
    && (s.events >= 1000 ==>
          && after.house == after.accountHouse && after.error == Some("incomplete_history")
          && after.game == None && after.evidence == "" && after.tipster == "")
  }

  /** A stretch consolidates each of its ends once. */
  lemma {:induction false} EndsLandOnce(s: Source, candidates: seq<Candidate>, decisions: seq<Decision>, k: nat)
    requires EndsOnce(candidates) && k < |candidates| && k < |decisions|
    requires Wants(candidates[k].judgement) && decisions[k].Acceptance?
    requires candidates[k].houseId != candidates[k].tipId && (s.id == candidates[k].houseId || s.id == candidates[k].tipId)
    ensures Landed(s, Landing(s, candidates, decisions), s.id == candidates[k].houseId, decisions[k])
    decreases |candidates|
  {
    var c, rest := candidates[0], candidates[1..];
    assert forall i :: 0 <= i < |rest| ==> rest[i] == candidates[i + 1];
    if k == 0 {
      UntouchedLands(Consolidated(s, c, decisions[0]), rest, decisions[1..]);
    } else {
      assert rest[k - 1] == candidates[k] && decisions[1..][k - 1] == decisions[k];
      hide Landed, Reread;
      EndsLandOnce(s, rest, decisions[1..], k - 1);
    }
  }

  /** The candidate's decision, in the one journal row that applied it. */
  ghost predicate AppliedBy(journal: seq<Chunk>, k: nat, d: Decision) {
    exists i :: 0 <= i < |journal| && journal[i].from <= k < journal[i].to && k - journal[i].from < |journal[i].actions|
                && journal[i].actions[k - journal[i].from] == d
  }

  /**
   At every checkpoint each end of a candidate before the offset is its approved row, consolidated
   once as its journal row decided, however many chunks there were and whatever fell between them.
   */
  lemma {:induction false} JournalLands(rv: Reviewed, e: Engine, journal: seq<Chunk>, i: nat, k: nat) returns (d: Decision)
    requires Approved(rv, e) && JournalSound(rv, journal) && i < |rv.mark.items|
    requires k < Offset(journal) <= |rv.report.candidates| && Wants(rv.report.candidates[k].judgement)
    requires var c := rv.report.candidates[k]; rv.mark.items[i].id == c.houseId || rv.mark.items[i].id == c.tipId
    ensures d.Acceptance? && AppliedBy(journal, k, d) && |Checkpoint(rv, journal).items| == |rv.mark.items|
    ensures Landed(rv.mark.items[i], Checkpoint(rv, journal).items[i], rv.mark.items[i].id == rv.report.candidates[k].houseId, d)
  {
    hide Approved, Landed, Landing, JournalSound, EndsOnce, Edited, Pairs, WantedPairs, SuppressedTips, TakenTips, Ends;
    var n := |journal| - 1;
    JournalPrefixSound(rv, journal, n);
    LastRow(rv, journal);
    if journal[n].from <= k {
      d := LastRowLands(rv, e, journal, i, k);
    } else {
      d := JournalLands(rv, e, journal[..n], i, k);
      LastRowKeeps(rv, e, journal, i, k);
      EarlierStays(journal, k, d);
    }
  }

  lemma EarlierStays(journal: seq<Chunk>, k: nat, d: Decision)
    requires journal != [] && AppliedBy(journal[..|journal| - 1], k, d)
    ensures AppliedBy(journal, k, d)
  {
    var before := journal[..|journal| - 1];
    var j :| 0 <= j < |before| && before[j].from <= k < before[j].to && k - before[j].from < |before[j].actions|
             && before[j].actions[k - before[j].from] == d;
    assert journal[j] == before[j];
  }

  /** The last row applies its stretch to the checkpoint before it, bet by bet. */
  lemma LastRow(rv: Reviewed, journal: seq<Chunk>)
    requires journal != [] && JournalSound(rv, journal)
    ensures var row, before, c := journal[|journal| - 1], Checkpoint(rv, journal[..|journal| - 1]).items, rv.report.candidates;
            && row.from == Offset(journal[..|journal| - 1]) <= row.to <= |c|
            && ApplyAll(row.pre.(rest := row.prepared), c[row.from..row.to], row.actions) != None
            && |row.post.items| == |before|
            && forall i :: 0 <= i < |before| ==> row.post.items[i] == Landing(before[i], c[row.from..row.to], row.actions)
  {
    hide Landing, ApplyAll, Observed, ExpectedAt;
    var row := journal[|journal| - 1];
    assert RowSound(rv, journal, |journal| - 1);
    ApplyAllLands(row.pre.(rest := row.prepared), rv.report.candidates[row.from..row.to], row.actions);
  }

  lemma LastRowLands(rv: Reviewed, e: Engine, journal: seq<Chunk>, i: nat, k: nat) returns (d: Decision)
    requires Approved(rv, e) && journal != [] && JournalSound(rv, journal) && i < |rv.mark.items|
    requires journal[|journal| - 1].from <= k < Offset(journal) <= |rv.report.candidates|
    requires Wants(rv.report.candidates[k].judgement)
    requires var c := rv.report.candidates[k]; rv.mark.items[i].id == c.houseId || rv.mark.items[i].id == c.tipId
    ensures d.Acceptance? && AppliedBy(journal, k, d) && |Checkpoint(rv, journal).items| == |rv.mark.items|
    ensures Landed(rv.mark.items[i], Checkpoint(rv, journal).items[i], rv.mark.items[i].id == rv.report.candidates[k].houseId, d)
  {
    hide Approved, Landed, Landing, ApplyAll, JournalSound, EndsOnce, Pairs, WantedPairs, SuppressedTips, TakenTips, Ends;
    var c, n := rv.report.candidates, |journal| - 1;
    var row := journal[n];
    LastRow(rv, journal);
    FreshBefore(rv, e, journal, i, k);
    LastPost(rv, journal);
    hide Offset, Checkpoint, EndsOnce;
    d := WantedDecision(row.pre.(rest := row.prepared), c[row.from..row.to], row.actions, k - row.from);
    EndLands(rv, e, row.from, row.to, row.actions, rv.mark.items[i], k);
    assert row.post == Checkpoint(rv, journal) by { LastPost(rv, journal); }
  }

  lemma LastPost(rv: Reviewed, journal: seq<Chunk>)
    requires journal != []
    ensures Checkpoint(rv, journal) == journal[|journal| - 1].post && Offset(journal) == journal[|journal| - 1].to
  {
  }

  lemma EndLands(rv: Reviewed, e: Engine, from: nat, to: nat, decisions: seq<Decision>, s: Source, k: nat)
    requires Approved(rv, e) && from <= k < to <= |rv.report.candidates| && k - from < |decisions|
    requires Wants(rv.report.candidates[k].judgement) && decisions[k - from].Acceptance?
    requires var c := rv.report.candidates[k]; s.id == c.houseId || s.id == c.tipId
    ensures Landed(s, Landing(s, rv.report.candidates[from..to], decisions), s.id == rv.report.candidates[k].houseId, decisions[k - from])
  {
    hide Approved, Landed, Landing, EndsOnce;
    ApprovedIsReport(rv, e);
    EndsApart(rv.mark.items, rv.mark.links, rv.filters, e, k, k);
    StretchEndsOnce(rv, e, from, to);
    EndsLandOnce(s, rv.report.candidates[from..to], decisions, k - from);
  }

  /** Before the row that applies candidate `k`, its ends are as they were approved. */
  lemma FreshBefore(rv: Reviewed, e: Engine, journal: seq<Chunk>, i: nat, k: nat)
    requires Approved(rv, e) && journal != [] && JournalSound(rv, journal) && i < |rv.mark.items|
    requires journal[|journal| - 1].from <= k < Offset(journal) <= |rv.report.candidates|
    requires Wants(rv.report.candidates[k].judgement)
    requires var c := rv.report.candidates[k]; rv.mark.items[i].id == c.houseId || rv.mark.items[i].id == c.tipId
    ensures var before := Checkpoint(rv, journal[..|journal| - 1]).items;
            |before| == |rv.mark.items| && before[i] == rv.mark.items[i]
  {
    hide Approved, Landing, ApplyAll, JournalSound, Pairs, WantedPairs, SuppressedTips, TakenTips, Ends;
    var n := |journal| - 1;
    LastRow(rv, journal);
    JournalPrefixSound(rv, journal, n);
    JournalEffect(rv, journal[..n]);
    FreshEnds(rv, e, journal[n].from, k);
  }

  lemma LastRowKeeps(rv: Reviewed, e: Engine, journal: seq<Chunk>, i: nat, k: nat)
    requires Approved(rv, e) && journal != [] && JournalSound(rv, journal) && i < |rv.mark.items|
    requires k < journal[|journal| - 1].from && k < |rv.report.candidates| && Wants(rv.report.candidates[k].judgement)
    requires var c := rv.report.candidates[k]; rv.mark.items[i].id == c.houseId || rv.mark.items[i].id == c.tipId
    ensures var before := Checkpoint(rv, journal[..|journal| - 1]).items;
            && |Checkpoint(rv, journal).items| == |before| == |rv.mark.items|
            && Checkpoint(rv, journal).items[i] == before[i]
  {
    hide Approved, Landing, ApplyAll, JournalSound, Pairs, WantedPairs, SuppressedTips, TakenTips, Ends;
    var n := |journal| - 1;
    var row := journal[n];
    LastRow(rv, journal);
    JournalPrefixSound(rv, journal, n);
    JournalEffect(rv, journal[..n]);
    var s := Checkpoint(rv, journal[..n]).items[i];
    LaterEndsApart(rv, e, row.from, row.to, k, s.id);
    UntouchedLands(s, rv.report.candidates[row.from..row.to], row.actions);
  }

  lemma ApprovedIsReport(rv: Reviewed, e: Engine)
    requires Approved(rv, e)
    ensures Scanned(rv.mark.items) && ScannedLinks(rv.mark.links)
    ensures rv.report.candidates == Candidates(rv.mark.items, rv.mark.links, rv.filters, e)
  {
  }

  lemma WantedDecision(content: Content, candidates: seq<Candidate>, decisions: seq<Decision>, k: nat) returns (d: Decision)
    requires ApplyAll(content, candidates, decisions) != None && k < |candidates| && Wants(candidates[k].judgement)
    ensures k < |decisions| && d == decisions[k] && d.Acceptance?
  {
    ApplyAllExactly(content, candidates, decisions);
    d := decisions[k];
  }

  lemma LaterEndsApart(rv: Reviewed, e: Engine, from: nat, to: nat, k: nat, id: nat)
    requires Approved(rv, e) && k < from <= to <= |rv.report.candidates| && Wants(rv.report.candidates[k].judgement)
    requires id == rv.report.candidates[k].houseId || id == rv.report.candidates[k].tipId
    ensures id !in Ends(rv.report.candidates[from..to])
  {
    hide Approved;
    ApprovedIsReport(rv, e);
    hide Candidates;
    var c := rv.report.candidates;
    forall j | from <= j < to && Wants(c[j].judgement) ensures c[j].houseId != id && c[j].tipId != id {
      EndsApart(rv.mark.items, rv.mark.links, rv.filters, e, k, j);
    }
  }

  // ---------------------------------------------------------------- a full history

  lemma {:induction false} OneLeaver(items: seq<Source>, candidates: seq<Candidate>, decisions: seq<Decision>,
                                     suppressed: set<nat>, house: string)
    requires forall s :: s in items && Displaced(s, candidates, decisions) ==> Landing(s, candidates, decisions).house != house
    ensures var bets := Drift(items, candidates, decisions, suppressed, house).bets;
            && bets <= 0
            && ((exists s :: s in items && Displaced(s, candidates, decisions) && s.house == house) ==> bets < 0)
  {
    hide Displaced, Landing, Share;
    if items != [] {
      var n := |items| - 1;
      ShareIsOneBet(items[n], suppressed);
      OneLeaver(items[..n], candidates, decisions, suppressed, house);
      assert items == items[..n] + [items[n]];
    }
  }

  /** A bet displaced from a house to which the chunk displaces none blocks the chunk, whatever the service decides. */
  lemma LeaverBlocks(db: Db, rv: Reviewed, e: Engine, fate: Fate, s: Source)
    requires Approved(rv, e) && JournalSound(rv, db.journal) && !Complete(rv, db.journal)
    requires db.content == Checkpoint(rv, db.journal) && Offset(db.journal) <= |rv.report.candidates|
    requires s in db.content.items && Displaced(s, NextStretch(rv, db.journal), fate.decisions)
    requires forall o :: o in db.content.items && Displaced(o, NextStretch(rv, db.journal), fate.decisions) ==>
               Landing(o, NextStretch(rv, db.journal), fate.decisions).house != s.house
    ensures !Attempt(db, rv, e, fate).Committed?
  {
    hide MakeReport, ApplyAll, Observed, ExpectedAt, JournalSound, Approved, Displaced, Landing, Drift;
    if fate.commits && ApplyAll(db.content.(rest := fate.prepared), NextStretch(rv, db.journal), fate.decisions).Some? {
      OwnWorkCommitsExactly(db, rv, e, fate);
      OneLeaver(db.content.items, NextStretch(rv, db.journal), fate.decisions, WithheldAfter(db, rv), s.house);
    }
  }

  /** A bet with room and one whose history is exactly full, which only an event more makes unreadable. */
  const OPEN_BET := (o: Origin) => Bet(o, true, false, false, false, true, 100, None, None)
  const HOUSE_BET := Source(1, "A", None, 0, None, "house", "", OPEN_BET(Casa), 1, "A")
  const FULL_TIP := Source(2, "A", None, 0, None, "tip", "", OPEN_BET(Telegram), MAX_HISTORY, "UNASSIGNED")
  const FULL_ROWS := [HOUSE_BET, FULL_TIP]
  const LENIENT := Engine((a, b) => Verdict(100, ExactEvidence), 0, 1, s => UniqueAccount)
  const FULL_MARK := Content(FULL_ROWS, [], 0)
  const FULL_PLAN := Reviewed(UNFILTERED, 1, FULL_MARK, MakeReport(FULL_ROWS, [], UNFILTERED, LENIENT))

  lemma FullSearchable()
    ensures Scanned(FULL_ROWS) && Searchable(FULL_ROWS, Occupied([])) == FULL_ROWS
  {
    assert FULL_ROWS[..1] == [HOUSE_BET] && [HOUSE_BET][..0] == [];
    assert Occupied([]) == {};
    BothEligible();
    hide Eligible;
    assert Searchable([HOUSE_BET], {}) == [HOUSE_BET];
  }

  lemma BothEligible()
    ensures Eligible(HOUSE_BET, {}) && Eligible(FULL_TIP, {}) && HOUSE_BET.id < FULL_TIP.id
  {
  }

  lemma FullReach(s: Source, o: Source)
    requires (s == HOUSE_BET && o == FULL_TIP) || (s == FULL_TIP && o == HOUSE_BET)
    ensures forall x :: Reach(FULL_ROWS, s, x, LENIENT) <==> x == o
    ensures s in FULL_ROWS && !Crowded(FULL_ROWS, s, LENIENT)
  {
    assert FULL_ROWS[0] == HOUSE_BET && FULL_ROWS[1] == FULL_TIP;
    assert (set x | x in FULL_ROWS && Reach(FULL_ROWS, s, x, LENIENT)) == {o};
  }

  lemma FullNeighbors(s: Source, o: Source)
    requires (s == HOUSE_BET && o == FULL_TIP) || (s == FULL_TIP && o == HOUSE_BET)
    ensures Neighbors(FULL_ROWS, s, LENIENT) == [o]
  {
    hide Neighbors, Window, Saturated, Reach, Crowded, Scanned;
    FullSearchable();
    FullReach(s, o);
    SaturatedIsCrowded(FULL_ROWS, s, LENIENT);
    WindowIsReach(FULL_ROWS, s, LENIENT);
    OnlyMember(Window(FULL_ROWS, s, LENIENT), o);
  }

  lemma OnlyMember<T(!new)>(w: seq<T>, o: T)
    requires Distinct(w) && forall x :: x in w <==> x == o
    ensures w == [o]
  {
    DistinctLength(w);
    assert (set x | x in w) == {o};
    assert w[0] in w;
  }

  lemma FullEdges() returns (x: Edge)
    ensures x == Edge(HOUSE_BET, FULL_TIP, Verdict(100, ExactEvidence)) && Edges(FULL_ROWS, LENIENT) == [x]
  {
    hide Neighbors;
    x := Edge(HOUSE_BET, FULL_TIP, Verdict(100, ExactEvidence));
    FullNeighbors(HOUSE_BET, FULL_TIP);
    assert FULL_ROWS[..1] == [HOUSE_BET] && [HOUSE_BET][..0] == [] && [FULL_TIP][..0] == [];
    assert EdgesAt(HOUSE_BET, [FULL_TIP], LENIENT) == [x];
    assert EdgesFrom([HOUSE_BET], FULL_ROWS, LENIENT) == [x];
  }

  /** The plan on these rows consolidates the pair, and does nothing else. */
  lemma FullPlan() returns (c: Candidate)
    ensures Approved(FULL_PLAN, LENIENT) && FULL_PLAN.report.candidates == [c]
    ensures Wants(c.judgement) && c.houseId == 1 && c.tipId == 2
  {
    hide Neighbors, Edges, VetoIds, Searchable, JudgeIn, Totals, PairCandidates, FaultyCandidates, SortBy, GraphAllows, Occupied;
    FullSearchable();
    var x := FullEdges();
    var s := SearchOf(FULL_ROWS, [], LENIENT);
    c := PairCandidate(x, s);
    assert GraphAllows(FULL_ROWS, HOUSE_BET, FULL_TIP, [], LENIENT) by { FullAllows(); }
    assert x in s.edges;
    JudgementFollowsGraph(FULL_ROWS, [], LENIENT, x);
    OnlyPair(x);
    NoFaults();
    OneSorted(c);
  }

  lemma OnlyPair(x: Edge)
    requires x.house == HOUSE_BET && Edges(FULL_ROWS, LENIENT) == [x] && Searchable(FULL_ROWS, Occupied([])) == FULL_ROWS
    ensures var s := SearchOf(FULL_ROWS, [], LENIENT); PairCandidates(s.edges, UNFILTERED, s) == [PairCandidate(x, s)]
  {
    hide Edges, VetoIds, Searchable, PairCandidate;
    assert [x][..0] == [];
  }

  lemma OneSorted(c: Candidate)
    ensures SortBy([c], PlaceOf) == [c] && [c] + [] + [] == [c]
  {
  }

  lemma NoFaults()
    ensures FaultyCandidates(FULL_ROWS, Occupied([])) == []
  {
    assert FULL_ROWS[..1] == [HOUSE_BET] && [HOUSE_BET][..0] == [];
    assert FaultyCandidates([HOUSE_BET], Occupied([])) == [];
  }

  lemma FullAllows()
    ensures GraphAllows(FULL_ROWS, HOUSE_BET, FULL_TIP, [], LENIENT)
  {
    hide Reach, Crowded;
    FullReach(HOUSE_BET, FULL_TIP);
    FullReach(FULL_TIP, HOUSE_BET);
    forall h | FullEdge(FULL_ROWS, h, FULL_TIP, LENIENT) ensures h == HOUSE_BET {
      Mirrored(h, FULL_TIP);
    }
  }

  lemma Mirrored(s: Source, o: Source)
    requires Reach(FULL_ROWS, s, o, LENIENT)
    ensures Reach(FULL_ROWS, o, s, LENIENT)
  {
  }

  /** With a full history on one end, no attempt commits: the tip leaves house "A" and the check sees it. */
  lemma FullHistoryStops(fate: Fate)
    ensures !Attempt(Db(FULL_MARK, []), FULL_PLAN, LENIENT, fate).Committed?
  {
    var c := FullPlan();
    hide Approved, MakeReport, Observed, ExpectedAt;
    var db := Db(FULL_MARK, []);
    assert NextStretch(FULL_PLAN, []) == [c];
    if fate.decisions != [] && fate.decisions[0].Acceptance? {
      assert Landing(FULL_TIP, [c], fate.decisions).house == "UNASSIGNED";
      assert Landing(HOUSE_BET, [c], fate.decisions).house == "A";
      assert FULL_TIP in FULL_ROWS by { assert FULL_ROWS[1] == FULL_TIP; }
      LeaverBlocks(db, FULL_PLAN, LENIENT, fate, FULL_TIP);
    } else {
      assert ApplyAll(FULL_MARK.(rest := fate.prepared), [c], fate.decisions).None?;
    }
  }

  /** So no number of retries ever applies that plan. */
  lemma {:induction false} FullHistoryNeverApplies(events: seq<Event>)
    requires forall i :: 0 <= i < |events| ==> events[i].Try?
    ensures Run(Db(FULL_MARK, []), FULL_PLAN, LENIENT, events) == Db(FULL_MARK, [])
  {
    hide Attempt;
    if events != [] {
      FullHistoryNeverApplies(events[..|events| - 1]);
      FullHistoryStops(events[|events| - 1].fate);
    }
  }

  // ---------------------------------------------------------------- an empty plan

  /** The first attempt at a plan without candidates commits a row from 0 to 0; the next finds it complete. */
  lemma EmptyPlanCommits(e: Engine, batch: nat)
    requires 1 <= batch <= MAX_BATCH
    ensures var mark := Content([], [], 0); var rv := Reviewed(UNFILTERED, batch, mark, MakeReport([], [], UNFILTERED, e));
            var first := Attempt(Db(mark, []), rv, e, Fate(0, [], true));
            && Approved(rv, e) && rv.report.candidates == []
            && first.Committed? && |first.db.journal| == 1 && first.db.journal[0].from == first.db.journal[0].to == 0
            && Attempt(first.db, rv, e, Fate(0, [], true)).AlreadyComplete?
  {
    EmptyReport(e);
    hide MakeReport;
  }

  lemma EmptyReport(e: Engine)
    ensures MakeReport([], [], UNFILTERED, e) == Report([], map[], map[])
  {
    hide Degree, Judge, VetoIds;
  }
}
