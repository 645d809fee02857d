/**
 `apply_report`: the reviewed plan applied in chunks, each chunk one transaction that also
 appends one journal row. The digest of a high-water mark is taken as collision free, so a mark
 is the content it digests.
 */
module Applying {
  import opened Wrappers
  import opened Sources
  import opened Matching
  import opened Money
  import opened Plan
  import opened PlanMeaning

  /** Everything a high-water mark covers; `rest` stands for the tables that hold no money. */
  datatype Content = Content(items: seq<Source>, links: seq<Link>, rest: int)

  /**
   What the consolidation service or the review generator did with one candidate. The service only
   accepts a pair whose histories both name the house, and gives the house bet an account, with its
   house, and a tipster.
   */
  datatype Decision =
    | Refusal
    | Acceptance(relation: nat, tipsterId: Option<int>, tipster: string, accountHouse: string, rest: int)

  /** One append-only journal row. */
  datatype Chunk = Chunk(
    index: nat, from: nat, to: nat, batch: nat, pre: Content, post: Content,
    preTotals: Ledger, postTotals: Ledger, prepared: int, actions: seq<Decision>)

  datatype Reviewed = Reviewed(filters: Filters, batch: nat, mark: Content, report: Report)

  /**
   What happens to one chunk attempt outside the program: the index snapshot it writes, the
   decisions it gets (too few means that it dies in the middle), and whether the commit succeeds.
   */
  datatype Fate = Fate(prepared: int, decisions: seq<Decision>, commits: bool)

  datatype Db = Db(content: Content, journal: seq<Chunk>)

  datatype Outcome = Stopped | AlreadyComplete(offset: nat) | Committed(db: Db)

  const MAX_BATCH := 200

  // ---------------------------------------------------------------- one chunk

  /** A bet after the consolidation of `c`: the house bet takes account and tipster, both histories grow. */
  function Consolidated(s: Source, c: Candidate, d: Decision): Source
    requires d.Acceptance?
  {
    if s.id == c.houseId then
      Reread(s.(accountHouse := d.accountHouse, tipster := d.tipster, bet := s.bet.(tipsterId := d.tipsterId)))
    else if s.id == c.tipId then
      Reread(s)
    else
      s
  }

  function ConsolidateRows(items: seq<Source>, c: Candidate, d: Decision): (r: seq<Source>)
    requires d.Acceptance?
    ensures |r| == |items|
    ensures forall i :: 0 <= i < |items| ==> r[i] == Consolidated(items[i], c, d)
  {
    if items == [] then [] else [Consolidated(items[0], c, d)] + ConsolidateRows(items[1..], c, d)
  }

  /** `apply_candidate`: None when it raises. */
  function ApplyOne(content: Content, c: Candidate, d: Decision): Option<Content> {
    match c.judgement.action
    case NoAction => Some(content)
    case Review => if d.Refusal? then None else Some(content.(rest := d.rest))
    case Consolidate =>
      if !c.judgement.classification.Exact? || d.Refusal? then
        None
      else
        Some(Content(ConsolidateRows(content.items, c, d),
                     content.links + [Link(d.relation, c.houseId, c.tipId, Active)], d.rest))
  }

  function ApplyAll(content: Content, candidates: seq<Candidate>, decisions: seq<Decision>): Option<Content>
    decreases |candidates|
  {
    if candidates == [] then
      Some(content)
    else if decisions == [] then
      None
    else
      var next := ApplyOne(content, candidates[0], decisions[0]);
      if next.None? then None else ApplyAll(next.value, candidates[1..], decisions[1..])
  }

  /** A stretch goes through exactly when each candidate got a decision that lets it. */
  lemma {:induction false} ApplyAllExactly(content: Content, candidates: seq<Candidate>, decisions: seq<Decision>)
    ensures ApplyAll(content, candidates, decisions) != None
            <==> |candidates| <= |decisions|
                 && forall i :: 0 <= i < |candidates| && candidates[i].judgement.action != NoAction ==>
                      && decisions[i] != Refusal
                      && (candidates[i].judgement.action == Consolidate ==> candidates[i].judgement.classification == Exact)
    decreases |candidates|
  {
    if candidates != [] && decisions != [] {
      var next := ApplyOne(content, candidates[0], decisions[0]);
      if next.Some? {
        ApplyAllExactly(next.value, candidates[1..], decisions[1..]);
        assert forall i :: 0 <= i < |candidates| - 1 ==> candidates[1..][i] == candidates[i + 1];
        assert forall i :: 0 <= i < |decisions| - 1 ==> decisions[1..][i] == decisions[i + 1];
        hide ApplyOne;
        assert forall i :: 1 <= i < |candidates| ==> candidates[i] == candidates[1..][i - 1];
        assert forall i :: 1 <= i < |decisions| ==> decisions[i] == decisions[1..][i - 1];
      }
    }
  }

  function Observed(content: Content): Ledger {
    Totals(content.items, SuppressedTips(content.links))
  }

  function ExpectedAt(rv: Reviewed, offset: nat): Ledger
    requires offset <= |rv.report.candidates|
  {
    Expected(rv.report.current, rv.report.candidates[..offset])
  }

  function Offset(journal: seq<Chunk>): nat {
    if journal == [] then 0 else journal[|journal| - 1].to
  }

  /** The content the next chunk must find: the approved one, then each chunk's own result. */
  function Checkpoint(rv: Reviewed, journal: seq<Chunk>): Content {
    if journal == [] then rv.mark else journal[|journal| - 1].post
  }

  function End(rv: Reviewed, offset: nat): nat
    requires offset <= |rv.report.candidates|
  {
    Min(offset + rv.batch, |rv.report.candidates|)
  }

  /** One pass of the loop in `apply_report`: one transaction. */
  function Attempt(db: Db, rv: Reviewed, e: Engine, fate: Fate): Outcome
    requires Offset(db.journal) <= |rv.report.candidates|
  {
    var offset := Offset(db.journal);
    var last := |db.journal| - 1;
    if db.content != Checkpoint(rv, db.journal) then
      Stopped
    else if db.journal == [] && MakeReport(db.content.items, db.content.links, rv.filters, e) != rv.report then
      Stopped
    else if db.journal != [] && db.journal[last].batch != rv.batch then
      Stopped
    else if Observed(db.content) != ExpectedAt(rv, offset) then
      Stopped
    else if db.journal != [] && offset == |rv.report.candidates| then
      AlreadyComplete(offset)
    else
      var end := End(rv, offset);
      var done := ApplyAll(db.content.(rest := fate.prepared), rv.report.candidates[offset..end], fate.decisions);
      if done.None? || Observed(done.value) != ExpectedAt(rv, end) || !fate.commits then
        Stopped
      else
        Committed(Db(done.value, db.journal + [
          Chunk(|db.journal|, offset, end, rv.batch, db.content, done.value,
                Observed(db.content), Observed(done.value), fate.prepared, fate.decisions)]))
  }

  // ---------------------------------------------------------------- what the journal always says

  /** The approved report was computed on rows read from the database. */
  ghost predicate Approved(rv: Reviewed, e: Engine) {
    && Scanned(rv.mark.items) && ScannedLinks(rv.mark.links)
    && rv.report == MakeReport(rv.mark.items, rv.mark.links, rv.filters, e)
    && 1 <= rv.batch <= MAX_BATCH
  }

  /** Row `i` continues the rows before it and records exactly what it applied. */
  ghost predicate RowSound(rv: Reviewed, journal: seq<Chunk>, i: nat)
    requires i < |journal|
  {
    var row, n := journal[i], |rv.report.candidates|;
    && row.index == i && row.batch == rv.batch
    && row.from == Offset(journal[..i]) && row.from <= n && (i > 0 ==> row.from < n)
    && row.to == Min(row.from + rv.batch, n)
    && row.pre == Checkpoint(rv, journal[..i])
    && ApplyAll(row.pre.(rest := row.prepared), rv.report.candidates[row.from..row.to], row.actions) == Some(row.post)
    && row.preTotals == Observed(row.pre) == ExpectedAt(rv, row.from)
    && row.postTotals == Observed(row.post) == ExpectedAt(rv, row.to)
  }

  ghost predicate JournalSound(rv: Reviewed, journal: seq<Chunk>) {
    forall i :: 0 <= i < |journal| ==> RowSound(rv, journal, i)
  }

  lemma OffsetInRange(rv: Reviewed, journal: seq<Chunk>)
    requires JournalSound(rv, journal)
    ensures Offset(journal) <= |rv.report.candidates|
  {
    if journal != [] {
      assert RowSound(rv, journal, |journal| - 1);
    }
  }

  lemma AttemptKeepsJournalSound(db: Db, rv: Reviewed, e: Engine, fate: Fate)
    requires JournalSound(rv, db.journal) && Offset(db.journal) <= |rv.report.candidates|
    requires Attempt(db, rv, e, fate).Committed?
    ensures var after := Attempt(db, rv, e, fate).db;
            && JournalSound(rv, after.journal)
            && db.journal < after.journal && |after.journal| == |db.journal| + 1
            && after.content == Checkpoint(rv, after.journal)
  {
    hide MakeReport, Observed, ApplyAll, Expected;
    var after := Attempt(db, rv, e, fate).db;
    forall i | 0 <= i < |after.journal| ensures RowSound(rv, after.journal, i) {
      if i < |db.journal| {
        assert RowSound(rv, db.journal, i);
        assert after.journal[..i] == db.journal[..i];
      } else {
        assert after.journal[..i] == db.journal;
      }
    }
  }

  // ---------------------------------------------------------------- runs

  /** Anything that can happen to the stored state: an attempt, or a writer outside the job. */
  datatype Event = Try(fate: Fate) | ForeignWrite(content: Content)

  function Next(db: Db, rv: Reviewed, e: Engine, event: Event): Db {
    match event
    case ForeignWrite(content) => db.(content := content)
    case Try(fate) =>
      if Offset(db.journal) > |rv.report.candidates| then
        db
      else
        var o := Attempt(db, rv, e, fate);
        if o.Committed? then o.db else db
  }

  function Run(db: Db, rv: Reviewed, e: Engine, events: seq<Event>): Db {
    if events == [] then
      db
    else
      Next(Run(db, rv, e, events[..|events| - 1]), rv, e, events[|events| - 1])
  }

  /**
   Safety over every run: whatever crashes, refusals and foreign writes happen, the journal stays
   a gapless record, and it only ever grows.
   */
  lemma {:induction false} RunKeepsJournalSound(db: Db, rv: Reviewed, e: Engine, events: seq<Event>)
    requires JournalSound(rv, db.journal)
    ensures JournalSound(rv, Run(db, rv, e, events).journal)
    ensures db.journal <= Run(db, rv, e, events).journal
  {
    hide Attempt, RowSound;
    if events != [] {
      var before := Run(db, rv, e, events[..|events| - 1]);
      RunKeepsJournalSound(db, rv, e, events[..|events| - 1]);
      OffsetInRange(rv, before.journal);
      var event := events[|events| - 1];
      if event.Try? && Attempt(before, rv, e, event.fate).Committed? {
        AttemptKeepsJournalSound(before, rv, e, event.fate);
      }
    }
  }

  ghost predicate Complete(rv: Reviewed, journal: seq<Chunk>) {
    journal != [] && Offset(journal) == |rv.report.candidates|
  }

  /** Once the plan is complete nothing the job does writes again. */
  lemma {:induction false} CompletedIsFinal(db: Db, rv: Reviewed, e: Engine, events: seq<Event>)
    requires JournalSound(rv, db.journal) && Complete(rv, db.journal)
    ensures Run(db, rv, e, events).journal == db.journal
    ensures (forall i :: 0 <= i < |events| ==> events[i].Try?) ==> Run(db, rv, e, events) == db
  {
    hide MakeReport, Observed, ApplyAll, Expected;
    if events != [] {
      CompletedIsFinal(db, rv, e, events[..|events| - 1]);
    }
  }

  /** A plan that the current evaluation does not reproduce is never applied, whatever its hash. */
  lemma {:induction false} ForgedPlanNeverApplies(db: Db, rv: Reviewed, e: Engine, events: seq<Event>)
    requires db.journal == []
    requires rv.report != MakeReport(rv.mark.items, rv.mark.links, rv.filters, e)
    ensures Run(db, rv, e, events).journal == []
  {
    hide MakeReport, Observed, ApplyAll, Expected;
    if events != [] {
      ForgedPlanNeverApplies(db, rv, e, events[..|events| - 1]);
    }
  }

  /** A journal begun with another batch size is never continued. */
  lemma {:induction false} OtherBatchNeverApplies(db: Db, rv: Reviewed, e: Engine, events: seq<Event>)
    requires db.journal != [] && db.journal[|db.journal| - 1].batch != rv.batch
    ensures Run(db, rv, e, events).journal == db.journal
  {
    hide MakeReport, Observed, ApplyAll, Expected;
    if events != [] {
      OtherBatchNeverApplies(db, rv, e, events[..|events| - 1]);
    }
  }

  /** Every candidate before the offset lies in exactly one journal row. */
  lemma {:induction false} AppliedExactlyOnce(rv: Reviewed, journal: seq<Chunk>, k: nat)
    requires JournalSound(rv, journal) && k < Offset(journal)
    ensures exists i :: 0 <= i < |journal| && journal[i].from <= k < journal[i].to
    ensures forall i, j :: 0 <= i < j < |journal| ==> !(journal[i].from <= k < journal[i].to
                                                      && journal[j].from <= k < journal[j].to)
  {
    hide ApplyAll, ExpectedAt, Observed, Checkpoint;
    var n := |journal| - 1;
    var earlier := journal[..n];
    assert RowSound(rv, journal, n);
    JournalPrefixSound(rv, journal, n);
    forall i | 0 <= i < n ensures journal[i].to <= journal[n].from {
      RowsAscend(rv, journal, i, n);
    }
    if k < Offset(earlier) {
      AppliedExactlyOnce(rv, earlier, k);
      var i :| 0 <= i < |earlier| && earlier[i].from <= k < earlier[i].to;
      assert journal[i].from <= k < journal[i].to;
    } else {
      assert journal[n].from <= k < journal[n].to;
      forall i | 0 <= i < n ensures !(journal[i].from <= k < journal[i].to) {
      }
    }
  }

  lemma JournalPrefixSound(rv: Reviewed, journal: seq<Chunk>, n: nat)
    requires JournalSound(rv, journal) && n <= |journal|
    ensures JournalSound(rv, journal[..n])
  {
    hide ApplyAll, ExpectedAt;
    forall i | 0 <= i < n ensures RowSound(rv, journal[..n], i) {
      assert RowSound(rv, journal, i);
      assert journal[..n][..i] == journal[..i];
    }
  }

  lemma {:induction false} RowsAscend(rv: Reviewed, journal: seq<Chunk>, i: nat, j: nat)
    requires JournalSound(rv, journal) && i < j < |journal|
    ensures journal[i].to <= journal[j].from
    decreases j - i
  {
    hide ApplyAll, ExpectedAt;
    assert RowSound(rv, journal, j) && RowSound(rv, journal, j - 1);
    if i < j - 1 {
      RowsAscend(rv, journal, i, j - 1);
    }
  }

  // ---------------------------------------------------------------- what the chunks add up to

  function Pairs(links: seq<Link>): seq<(nat, nat, LinkState)> {
    if links == [] then
      []
    else
      var n := |links| - 1;
      Pairs(links[..n]) + [(links[n].houseId, links[n].tipId, links[n].state)]
  }

  function WantedPairs(candidates: seq<Candidate>): seq<(nat, nat, LinkState)> {
    if candidates == [] then
      []
    else
      (if Wants(candidates[0].judgement) then [(candidates[0].houseId, candidates[0].tipId, Active)] else [])
      + WantedPairs(candidates[1..])
  }

  lemma {:induction false} WantedPairsSplit(a: seq<Candidate>, b: seq<Candidate>)
    ensures WantedPairs(a + b) == WantedPairs(a) + WantedPairs(b)
  {
    if a == [] {
      assert a + b == b;
    } else {
      hide WantedPairs;
      WantedPairsSplit(a[1..], b);
      WantedFirst(a + b);
      WantedFirst(a);
      assert (a + b)[1..] == a[1..] + b;
      Regroup(WantedPairs([a[0]]), WantedPairs(a[1..]), WantedPairs(b));
    }
  }

  lemma WantedFirst(c: seq<Candidate>)
    requires c != []
    ensures WantedPairs(c) == WantedPairs([c[0]]) + WantedPairs(c[1..])
  {
  }

  /** The bets that the candidates to consolidate would change. */
  function Ends(candidates: seq<Candidate>): set<nat> {
    TakenTips(candidates) + set c | c in candidates && Wants(c.judgement) :: c.houseId
  }

  predicate SameMoney(a: Bet, b: Bet) {
    a.(tipsterId := None) == b.(tipsterId := None)
  }

  /** No bet gains or loses money, and only those of `ids` change at all. */
  ghost predicate Edited(after: seq<Source>, before: seq<Source>, ids: set<nat>) {
    && |after| == |before|
    && forall i :: 0 <= i < |before| ==>
         && after[i].id == before[i].id && SameMoney(after[i].bet, before[i].bet)
         && (before[i].id !in ids ==> after[i] == before[i])
  }

  lemma EditedNothing(a: seq<Source>, ids: set<nat>)
    ensures Edited(a, a, ids)
  {
  }

  lemma EditedTwice(c: seq<Source>, b: seq<Source>, a: seq<Source>, first: set<nat>, second: set<nat>)
    requires Edited(b, a, first) && Edited(c, b, second)
    ensures Edited(c, a, first + second)
  {
  }

  lemma ConsolidatedKeepsMoney(s: Source, c: Candidate, d: Decision)
    requires d.Acceptance?
    ensures var after := Consolidated(s, c, d);
            && after.id == s.id && SameMoney(after.bet, s.bet)
            && (s.id != c.houseId && s.id != c.tipId ==> after == s)
  {
  }

  lemma ApplyOneEffect(content: Content, c: Candidate, d: Decision)
    requires ApplyOne(content, c, d).Some?
    ensures var next := ApplyOne(content, c, d).value;
            && Edited(next.items, content.items, Ends([c]))
            && Pairs(next.links) == Pairs(content.links) + WantedPairs([c])
            && SuppressedTips(next.links) == SuppressedTips(content.links) + TakenTips([c])
  {
    hide SuppressedTips, Pairs, Consolidated, SameMoney;
    assert WantedPairs([c]) == if Wants(c.judgement) then [(c.houseId, c.tipId, Active)] else [];
    if c.judgement.action.Consolidate? {
      OneMoreLink(content.links, Link(d.relation, c.houseId, c.tipId, Active));
      assert c in [c];
      forall i | 0 <= i < |content.items|
        ensures var after := Consolidated(content.items[i], c, d);
                && after.id == content.items[i].id && SameMoney(after.bet, content.items[i].bet)
                && (content.items[i].id !in Ends([c]) ==> after == content.items[i])
      {
        ConsolidatedKeepsMoney(content.items[i], c, d);
      }
    } else {
      EditedNothing(content.items, Ends([c]));
      assert Pairs(content.links) + [] == Pairs(content.links);
    }
  }

  lemma OneMoreLink(links: seq<Link>, l: Link)
    requires l.state.Active?
    ensures Pairs(links + [l]) == Pairs(links) + [(l.houseId, l.tipId, Active)]
    ensures SuppressedTips(links + [l]) == SuppressedTips(links) + {l.tipId}
  {
  }

  /** One uninterrupted stretch: one active relation per wanted candidate, in order, and no money moved. */
  lemma {:induction false} ApplyAllEffect(content: Content, candidates: seq<Candidate>, decisions: seq<Decision>)
    requires ApplyAll(content, candidates, decisions).Some?
    ensures var after := ApplyAll(content, candidates, decisions).value;
            && Edited(after.items, content.items, Ends(candidates))
            && Pairs(after.links) == Pairs(content.links) + WantedPairs(candidates)
            && SuppressedTips(after.links) == SuppressedTips(content.links) + TakenTips(candidates)
    decreases |candidates|
  {
    hide ApplyOne, SuppressedTips, Pairs, Edited;
    if candidates == [] {
      EditedNothing(content.items, Ends(candidates));
    } else {
      hide WantedPairs, Ends, TakenTips;
      var next := ApplyOne(content, candidates[0], decisions[0]).value;
      ApplyOneEffect(content, candidates[0], decisions[0]);
      ApplyAllEffect(next, candidates[1..], decisions[1..]);
      var after := ApplyAll(content, candidates, decisions).value;
      EditedTwice(after.items, next.items, content.items, Ends([candidates[0]]), Ends(candidates[1..]));
      FirstSplit(candidates);
      Regroup(Pairs(content.links), WantedPairs([candidates[0]]), WantedPairs(candidates[1..]));
    }
  }

  lemma FirstSplit(c: seq<Candidate>)
    requires c != []
    ensures WantedPairs(c) == WantedPairs([c[0]]) + WantedPairs(c[1..])
    ensures TakenTips(c) == TakenTips([c[0]]) + TakenTips(c[1..])
    ensures Ends(c) == Ends([c[0]]) + Ends(c[1..])
  {
    WantedFirst(c);
    EndsSplit([c[0]], c[1..]);
    assert c == [c[0]] + c[1..];
  }

  lemma EndsSplit(a: seq<Candidate>, b: seq<Candidate>)
    ensures TakenTips(a + b) == TakenTips(a) + TakenTips(b)
    ensures Ends(a + b) == Ends(a) + Ends(b)
  {
  }

  lemma {:induction false} JournalEffect(rv: Reviewed, journal: seq<Chunk>)
    requires JournalSound(rv, journal)
    ensures var now, c := Checkpoint(rv, journal), rv.report.candidates;
            && Offset(journal) <= |c|
            && Edited(now.items, rv.mark.items, Ends(c[..Offset(journal)]))
            && Pairs(now.links) == Pairs(rv.mark.links) + WantedPairs(c[..Offset(journal)])
            && SuppressedTips(now.links) == SuppressedTips(rv.mark.links) + TakenTips(c[..Offset(journal)])
  {
    hide Pairs, SuppressedTips, Edited, JournalSound, WantedPairs;
    if journal == [] {
      NothingApplied(rv);
    } else {
      hide TakenTips, Ends;
      var n, c := |journal| - 1, rv.report.candidates;
      JournalPrefixSound(rv, journal, n);
      JournalEffect(rv, journal[..n]);
      RowEffect(rv, journal);
      SplitAt(c, journal[n].from, journal[n].to);
      var before, now := c[..journal[n].from], c[journal[n].from..journal[n].to];
      EditedTwice(journal[n].post.items, Checkpoint(rv, journal[..n]).items, rv.mark.items, Ends(before), Ends(now));
      var pairs := Pairs(rv.mark.links);
      Regroup(pairs, WantedPairs(before), WantedPairs(now));
      var withheld := SuppressedTips(rv.mark.links);
      assert withheld + TakenTips(before) + TakenTips(now) == withheld + (TakenTips(before) + TakenTips(now));
    }
  }

  lemma Regroup<T>(a: seq<T>, b: seq<T>, c: seq<T>)
    ensures a + b + c == a + (b + c)
  {
  }

  lemma NothingApplied(rv: Reviewed)
    ensures var c := rv.report.candidates;
            && Edited(rv.mark.items, rv.mark.items, Ends(c[..0]))
            && WantedPairs(c[..0]) == [] && TakenTips(c[..0]) == {}
  {
  }

  /** What the last row adds to the checkpoint before it. */
  lemma RowEffect(rv: Reviewed, journal: seq<Chunk>)
    requires journal != [] && JournalSound(rv, journal)
    ensures var row, before, c := journal[|journal| - 1], Checkpoint(rv, journal[..|journal| - 1]), rv.report.candidates;
            && row.from == Offset(journal[..|journal| - 1]) && row.from <= row.to <= |c|
            && Edited(row.post.items, before.items, Ends(c[row.from..row.to]))
            && Pairs(row.post.links) == Pairs(before.links) + WantedPairs(c[row.from..row.to])
            && SuppressedTips(row.post.links) == SuppressedTips(before.links) + TakenTips(c[row.from..row.to])
  {
    hide Observed, ExpectedAt, Pairs, SuppressedTips, WantedPairs, TakenTips, Ends, ApplyAll, Edited;
    var row := journal[|journal| - 1];
    assert RowSound(rv, journal, |journal| - 1);
    ApplyAllEffect(row.pre.(rest := row.prepared), rv.report.candidates[row.from..row.to], row.actions);
  }

  lemma SplitAt(c: seq<Candidate>, from: nat, to: nat)
    requires from <= to <= |c|
    ensures WantedPairs(c[..to]) == WantedPairs(c[..from]) + WantedPairs(c[from..to])
    ensures TakenTips(c[..to]) == TakenTips(c[..from]) + TakenTips(c[from..to])
    ensures Ends(c[..to]) == Ends(c[..from]) + Ends(c[from..to])
  {
    hide WantedPairs;
    WantedPairsSplit(c[..from], c[from..to]);
    EndsSplit(c[..from], c[from..to]);
    assert c[..to] == c[..from] + c[from..to];
  }

  /**
   Exactly-once application: a complete journal leaves the relations of one uninterrupted pass,
   the approved ones followed by one active relation per candidate to consolidate, in plan order,
   whatever stops, crashes and foreign writes happened on the way.
   */
  lemma CompleteRunEqualsOnePass(db: Db, rv: Reviewed, e: Engine, events: seq<Event>)
    requires db.journal == [] && Complete(rv, Run(db, rv, e, events).journal)
    ensures var last := Checkpoint(rv, Run(db, rv, e, events).journal);
            && Pairs(last.links) == Pairs(rv.mark.links) + WantedPairs(rv.report.candidates)
            && Edited(last.items, rv.mark.items, Ends(rv.report.candidates))
  {
    hide Run, RowSound, Edited, Ends;
    RunKeepsJournalSound(db, rv, e, events);
    JournalEffect(rv, Run(db, rv, e, events).journal);
    assert rv.report.candidates[..|rv.report.candidates|] == rv.report.candidates;
  }

  /** At every checkpoint the bets really counted give the totals the plan expects there. */
  lemma CheckpointTotals(rv: Reviewed, e: Engine, journal: seq<Chunk>)
    requires Approved(rv, e) && JournalSound(rv, journal)
    ensures Offset(journal) <= |rv.report.candidates|
    ensures Observed(Checkpoint(rv, journal)) == ExpectedAt(rv, Offset(journal))
  {
    hide Totals, ApplyAll, Candidates;
    if journal != [] {
      hide Expected;
      assert RowSound(rv, journal, |journal| - 1);
    }
  }

  lemma CompleteIsProjected(rv: Reviewed, e: Engine, journal: seq<Chunk>)
    requires Approved(rv, e) && JournalSound(rv, journal) && Complete(rv, journal)
    ensures Observed(Checkpoint(rv, journal)) == rv.report.projected
  {
    hide RowSound, Candidates, Observed;
    CheckpointTotals(rv, e, journal);
    PlanReachesProjection(rv.mark.items, rv.mark.links, rv.filters, e, 0);
    assert rv.report.candidates[..|rv.report.candidates|] == rv.report.candidates;
  }

  /** Offsets are the multiples of the batch size, so the number of rows is fixed in advance. */
  lemma {:induction false} ChunkOffsets(rv: Reviewed, journal: seq<Chunk>)
    requires JournalSound(rv, journal)
    ensures Offset(journal) == Min(|journal| * rv.batch, |rv.report.candidates|)
    ensures |journal| > 1 ==> (|journal| - 1) * rv.batch < |rv.report.candidates|
  {
    hide ApplyAll, ExpectedAt;
    if journal != [] {
      var n := |journal| - 1;
      assert RowSound(rv, journal, n);
      JournalPrefixSound(rv, journal, n);
      ChunkOffsets(rv, journal[..n]);
      assert (n + 1) * rv.batch == n * rv.batch + rv.batch;
    }
  }

  // ---------------------------------------------------------------- the command itself

  datatype Response = Failed | Answered(nextOffset: nat, complete: bool, idempotent: bool)

  /** The stored state: the user's rows and the journal of this report. */
  class Database {
    var content: Content
    var journal: seq<Chunk>

    function State(): Db
      reads this
    {
      Db(content, journal)
    }

    /**
     `apply_report`. `fates` is what befalls the successive transactions; when it runs out the
     process dies before its next transaction.
     */
    method ApplyReport(rv: Reviewed, e: Engine, filters: Filters, batch: nat, maxChunks: Option<nat>, fates: seq<Fate>)
      returns (r: Response)
      requires JournalSound(rv, journal) && (maxChunks.Some? ==> maxChunks.value >= 1)
      modifies this
      ensures JournalSound(rv, journal) && old(journal) <= journal
      ensures journal == old(journal) ==> content == old(content)
      ensures journal != old(journal) ==> content == Checkpoint(rv, journal)
      ensures maxChunks.Some? ==> |journal| <= |old(journal)| + maxChunks.value
      ensures r.Answered? ==>
                && r.nextOffset == Offset(journal) && r.complete == Complete(rv, journal)
                && r.idempotent == (journal == old(journal))
                && content == Checkpoint(rv, journal)
                && (!r.complete ==> maxChunks.Some? && |journal| == |old(journal)| + maxChunks.value)
      ensures Complete(rv, old(journal)) ==> journal == old(journal)
      ensures Refused(rv, filters, batch) ==> r.Failed? && journal == old(journal) && content == old(content)
      ensures Approved(rv, e) && (exists s :: s in rv.mark.items && Broken(s, rv.mark.links)) ==>
                r.Failed? && journal == old(journal) && content == old(content)
      ensures Approved(rv, e) && filters == rv.filters && batch == rv.batch && !(exists s :: s in rv.mark.items && Broken(s, rv.mark.links)) ==>
                !Refused(rv, filters, batch)
      ensures (!Refused(rv, filters, batch) && fates != [] && Offset(old(journal)) <= |rv.report.candidates|
               && Attempt(old(State()), rv, e, fates[0]).Committed?) ==> old(journal) < journal
      ensures |journal| - |old(journal)| <= |fates| && Follows(journal, |old(journal)|, fates)
      ensures r.Failed? && !Refused(rv, filters, batch) ==>
                var k := |journal| - |old(journal)|;
                k == |fates| || (Offset(journal) <= |rv.report.candidates| && Attempt(State(), rv, e, fates[k]).Stopped?)
    {
      hide MakeReport, Observed, ApplyAll, Expected, Refused, Broken;
      RefusedExactly(rv, e, filters, batch);
      if Misused(rv, filters, batch) {
        return Failed;
      }
      var chunks := 0;
      while chunks < |fates|
        invariant 0 <= chunks <= |fates| && |journal| == |old(journal)| + chunks
        invariant JournalSound(rv, journal) && old(journal) <= journal
        invariant Follows(journal, |old(journal)|, fates)
        invariant chunks == 0 ==> journal == old(journal) && content == old(content)
        invariant chunks > 0 ==> content == Checkpoint(rv, journal) && Offset(journal) < |rv.report.candidates|
        invariant Complete(rv, old(journal)) ==> chunks == 0
        invariant maxChunks.Some? ==> chunks < maxChunks.value
      {
        OffsetInRange(rv, journal);
        var outcome := Attempt(State(), rv, e, fates[chunks]);
        match outcome {
          case Stopped => return Failed;
          case AlreadyComplete(offset) =>
            return Answered(offset, true, true);
          case Committed(db) =>
            AttemptKeepsJournalSound(State(), rv, e, fates[chunks]);
            content, journal := db.content, db.journal;
        }
        chunks := chunks + 1;
        OffsetInRange(rv, journal);
        var end := Offset(journal);
        var complete := end == |rv.report.candidates|;
        if complete || (maxChunks.Some? && chunks >= maxChunks.value) {
          return Answered(end, complete, false);
        }
      }
      r := Failed;
    }
  }

  /** Arguments that do not match the approved report, or a report with faulty sources. */
  predicate Misused(rv: Reviewed, filters: Filters, batch: nat) {
    filters != rv.filters || batch != rv.batch || !(1 <= batch <= MAX_BATCH) || HasErrors(rv)
  }

  /** What `apply_report` turns down before it touches anything. */
  ghost predicate Refused(rv: Reviewed, filters: Filters, batch: nat) {
    || filters != rv.filters || batch != rv.batch || batch < 1 || batch > 200
    || exists c :: c in rv.report.candidates && c.judgement.classification == Faulty
  }

  /** An approved report is turned down exactly for other arguments or for a broken bet among its rows. */
  lemma RefusedExactly(rv: Reviewed, e: Engine, filters: Filters, batch: nat)
    ensures Misused(rv, filters, batch) <==> Refused(rv, filters, batch)
    ensures Approved(rv, e) ==>
              (Refused(rv, filters, batch)
               <==> filters != rv.filters || batch != rv.batch || exists s :: s in rv.mark.items && Broken(s, rv.mark.links))
  {
    hide Candidates, Broken;
    if Approved(rv, e) {
      if s :| s in rv.mark.items && Broken(s, rv.mark.links) {
        BrokenHasError(s, rv.mark.links);
        FaultyExactly(rv.mark.items, rv.mark.links, rv.filters, e, FaultOf(s));
      }
      if c :| c in rv.report.candidates && c.judgement.classification == Faulty {
        FaultyExactly(rv.mark.items, rv.mark.links, rv.filters, e, c);
      }
    }
  }

  lemma BrokenHasError(s: Source, links: seq<Link>)
    requires Broken(s, links)
    ensures s.error != None
  {
  }

  /** The rows from `start` on record what befell the successive transactions, each of which committed. */
  predicate Follows(journal: seq<Chunk>, start: nat, fates: seq<Fate>) {
    forall i :: 0 <= i < |fates| && start + i < |journal| ==>
      && fates[i].commits
      && journal[start + i].prepared == fates[i].prepared && journal[start + i].actions == fates[i].decisions
  }

  predicate HasErrors(rv: Reviewed) {
    exists c :: c in rv.report.candidates && c.judgement.classification.Faulty?
  }
}
