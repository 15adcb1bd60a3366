/**
 * What the producers alone must do for open items to agree with the books: one posting per
 * source and kind, reversals that swap their document line by line, and deferrals on accounts
 * where the document has one side only. Lines a locator finds are alone on their account, so
 * nothing is asked of documents with both sides on one account.
 */
module ReconcileDocuments {
  import opened Wrappers
  import opened GlPosting
  import opened ReconcileGraph
  import opened ReconcileInvariants
  import opened ReconcileVerbs
  import opened ReconcileGrowth
  import opened ReconcileSteps
  import opened ReconcileReversals
  import opened ReconcileEnds
  import opened ReconcileLedger
  import opened ReconcileRuns
  import opened ReconcileUndo

  predicate OfDocument(j: Journal) {
    j.sourceType != Some(RECONCILIATION)
  }

  /** A document's line stands in its journal's stretch and carries its source. */
  ghost predicate LineFiled(g: Graph, l: nat)
    requires l < |g.lines|
  {
    var line := g.lines[l];
    && line.journal < |g.journals|
    && g.journals[line.journal].sourceType == line.sourceType && g.journals[line.journal].sourceId == line.sourceId
    && g.journals[line.journal].first <= l < g.journals[line.journal].first + g.journals[line.journal].count
  }

  ghost predicate JournalFiled(g: Graph, j: nat)
    requires j < |g.journals|
  {
    && g.journals[j].first + g.journals[j].count <= |g.lines|
    && forall l | g.journals[j].first <= l < g.journals[j].first + g.journals[j].count ::
      g.lines[l].journal == j && !Machinery(g.lines[l])
  }

  /** A line and the one `shift` lines further on: one account, opposite sides. */
  ghost predicate FacesAt(g: Graph, x: int, shift: int) {
    && 0 <= x < |g.lines| && 0 <= x + shift < |g.lines|
    && g.lines[x].account == g.lines[x + shift].account && Opposite(g, x, x + shift)
  }

  ghost predicate FaceStretch(g: Graph, from: nat, count: nat, shift: int) {
    forall x | from <= x < from + count :: FacesAt(g, x, shift)
  }

  /** The two journals of one source: of different kinds, and one the swapped image of the other. */
  ghost predicate Mirrored(g: Graph, i: nat, j: nat)
    requires i < |g.journals| && j < |g.journals|
  {
    var a, b := g.journals[i], g.journals[j];
    && a.reversing != b.reversing && a.count == b.count
    && a.first + a.count <= |g.lines| && b.first + b.count <= |g.lines|
    && FaceStretch(g, a.first, a.count, b.first - a.first)
  }

  ghost predicate SameSource(g: Graph, i: nat, j: nat)
    requires i < |g.journals| && j < |g.journals|
  {
    && OfDocument(g.journals[i])
    && g.journals[i].sourceType == g.journals[j].sourceType && g.journals[i].sourceId == g.journals[j].sourceId
  }

  ghost predicate Documents(g: Graph) {
    && (forall l | 0 <= l < |g.lines| && !Machinery(g.lines[l]) :: LineFiled(g, l))
    && (forall j | 0 <= j < |g.journals| && OfDocument(g.journals[j]) :: JournalFiled(g, j))
    && forall i, j | 0 <= i < |g.journals| && 0 <= j < |g.journals| && i != j && SameSource(g, i, j) :: Mirrored(g, i, j)
  }

  // ------------------------------------------------------------------ one side per document and account

  /** The document of the line has only the line's side on its account. */
  predicate OneSided(g: Graph, l: nat)
    requires l < |g.lines|
  {
    forall x | 0 <= x < |g.lines| && !Machinery(g.lines[x]) && g.lines[x].journal == g.lines[l].journal
      && g.lines[x].account == g.lines[l].account :: !Opposite(g, l, x)
  }

  function OneSidedLines(g: Graph): set<nat> {
    set l | 0 <= l < |g.lines| && (Machinery(g.lines[l]) || OneSided(g, l))
  }

  /** In the other journal of its source, the lines on its account are on the other side. */
  lemma {:induction false} AcrossIsOpposite(g: Graph, l: nat, k: nat)
    requires Documents(g) && l < |g.lines| && k < |g.lines| && !Machinery(g.lines[l]) && OneSided(g, l)
    requires SameItem(g, l, k) && g.lines[k].journal != g.lines[l].journal
    ensures Opposite(g, l, k)
  {
    assert LineFiled(g, l) && LineFiled(g, k);
    var i, j := g.lines[l].journal, g.lines[k].journal;
    assert SameSource(g, j, i) && Mirrored(g, j, i);
    assert JournalFiled(g, i);
    var shift := g.journals[i].first - g.journals[j].first;
    assert FacesAt(g, k, shift);
    assert !Opposite(g, l, k + shift);
  }

  lemma {:induction false} KindsDiffer(g: Graph, x: nat, k: nat)
    requires x < |g.lines| && k < |g.lines| && IsCounterpart(g, x, k)
    ensures g.lines[x].journal != g.lines[k].journal && SameItem(g, x, k)
  {
  }

  /** A source has one journal of each kind. */
  lemma {:induction false} OnePerKind(g: Graph, l: nat, x: nat)
    requires Documents(g) && l < |g.lines| && x < |g.lines| && !Machinery(g.lines[l]) && SameItem(g, l, x)
    ensures g.lines[l].journal < |g.journals| && g.lines[x].journal < |g.journals|
    ensures g.lines[l].journal == g.lines[x].journal
      || g.journals[g.lines[l].journal].reversing != g.journals[g.lines[x].journal].reversing
  {
    assert LineFiled(g, l) && LineFiled(g, x);
    var i, j := g.lines[l].journal, g.lines[x].journal;
    if i != j {
      assert SameSource(g, i, j) && Mirrored(g, i, j);
    }
  }

  lemma {:induction false} OneSidedIsFaced(g: Graph, l: nat)
    requires Documents(g) && l < |g.lines| && !Machinery(g.lines[l]) && OneSided(g, l)
    ensures Faced(g, l)
  {
    forall x, k | 0 <= x < |g.lines| && 0 <= k < |g.lines| && SameItem(g, l, x) && IsCounterpart(g, x, k)
      ensures Opposite(g, x, k)
    {
      KindsDiffer(g, x, k);
      OnePerKind(g, l, x);
      OnePerKind(g, l, k);
      if g.lines[l].journal == g.lines[x].journal {
        AcrossIsOpposite(g, l, k);
        assert !Opposite(g, l, x);
      } else {
        AcrossIsOpposite(g, l, x);
        assert !Opposite(g, l, k);
      }
    }
  }

  lemma {:induction false} OneSidedPairs(g: Graph)
    requires Documents(g)
    ensures PairsWithin(g, OneSidedLines(g), |g.lines|)
  {
    forall l, k | 0 <= l < |g.lines| && 0 <= k < |g.lines| && InOrNew(l, OneSidedLines(g), |g.lines|)
      && !Machinery(g.lines[l]) && IsCounterpart(g, l, k) ensures k in OneSidedLines(g)
    {
      KindsDiffer(g, l, k);
      AcrossIsOpposite(g, l, k);
      forall x | 0 <= x < |g.lines| && !Machinery(g.lines[x]) && g.lines[x].journal == g.lines[k].journal
        && g.lines[x].account == g.lines[k].account ensures !Opposite(g, k, x)
      {
        assert LineFiled(g, x) && LineFiled(g, k);
        AcrossIsOpposite(g, l, x);
      }
    }
  }

  /** A located line is the only one of its journal on its account. */
  lemma {:induction false} LocatedIsOneSided(g: Graph, loc: LineLocator)
    requires Documents(g) && Resolve(g, loc).Ok?
    ensures Resolve(g, loc).value in OneSidedLines(g)
  {
    var d := Resolve(g, loc).value;
    if !Machinery(g.lines[d]) {
      forall x | 0 <= x < |g.lines| && !Machinery(g.lines[x]) && g.lines[x].journal == g.lines[d].journal
        && g.lines[x].account == g.lines[d].account ensures !Opposite(g, d, x)
      {
        assert LineFiled(g, x) && LineFiled(g, d);
        assert Located(g, x, loc);
      }
    }
  }

  // ------------------------------------------------------------------ what the machinery leaves alone

  /** Only the machinery posted, lines and journals. */
  ghost predicate MachineryPosted(g: Graph, g': Graph) {
    Quieter(g, g') && forall j | |g.journals| <= j < |g'.journals| :: !OfDocument(g'.journals[j])
  }

  lemma {:induction false} StretchStays(g: Graph, g': Graph, from: nat, count: nat, shift: int)
    requires FaceStretch(g, from, count, shift) && g.lines <= g'.lines
    ensures FaceStretch(g', from, count, shift)
  {
    forall x | from <= x < from + count ensures FacesAt(g', x, shift) {
      assert FacesAt(g, x, shift);
    }
  }

  lemma {:induction false} MirroredStays(g: Graph, g': Graph, i: nat, j: nat)
    requires i < |g.journals| && j < |g.journals| && Mirrored(g, i, j) && Quieter(g, g')
    ensures Mirrored(g', i, j)
  {
    var a, b := g.journals[i], g.journals[j];
    StretchStays(g, g', a.first, a.count, b.first - a.first);
  }

  lemma {:induction false} DocumentsStay(g: Graph, g': Graph)
    requires Documents(g) && MachineryPosted(g, g')
    ensures Documents(g')
  {
    forall l | 0 <= l < |g'.lines| && !Machinery(g'.lines[l]) ensures LineFiled(g', l) {
      assert LineFiled(g, l);
    }
    forall j | 0 <= j < |g'.journals| && OfDocument(g'.journals[j]) ensures JournalFiled(g', j) {
      assert JournalFiled(g, j);
    }
    forall i, j | 0 <= i < |g'.journals| && 0 <= j < |g'.journals| && i != j && SameSource(g', i, j)
      ensures Mirrored(g', i, j)
    {
      assert SameSource(g, i, j) && Mirrored(g, i, j);
      MirroredStays(g, g', i, j);
    }
  }

  lemma {:induction false} OneSidedStays(g: Graph, g': Graph, l: nat)
    requires Quieter(g, g') && l in OneSidedLines(g)
    ensures l in OneSidedLines(g')
  {
    assert g'.lines[l] == g.lines[l];
    if !Machinery(g.lines[l]) {
      forall x | 0 <= x < |g'.lines| && !Machinery(g'.lines[x]) && g'.lines[x].journal == g'.lines[l].journal
        && g'.lines[x].account == g'.lines[l].account ensures !Opposite(g', l, x)
      {
        assert x < |g.lines| && g'.lines[x] == g.lines[x] && !Opposite(g, l, x);
      }
    }
  }

  ghost predicate EdgesOneSided(g: Graph) {
    Within(g.edges, OneSidedLines(g), |g.lines|)
  }

  lemma {:induction false} OneSidedEdgesStay(g: Graph, g': Graph)
    requires Quieter(g, g') && Within(g'.edges, OneSidedLines(g), |g.lines|) && Inv(g')
    ensures EdgesOneSided(g')
  {
    EdgeEnds(g');
    forall l: nat | InOrNew(l, OneSidedLines(g), |g.lines|) && l < |g'.lines| ensures l in OneSidedLines(g') {
      if l in OneSidedLines(g) {
        OneSidedStays(g, g', l);
      }
    }
    forall i | 0 <= i < |g'.edges|
      ensures InOrNew(g'.edges[i].debit, OneSidedLines(g'), |g'.lines|)
      ensures InOrNew(g'.edges[i].credit, OneSidedLines(g'), |g'.lines|)
    {
    }
  }

  // ------------------------------------------------------------------ the steps

  /** One posting per source and kind; and a second one swaps the lines of the first. */
  ghost predicate Proper(g: Graph, doc: Doc) {
    forall j | 0 <= j < |g.journals| && g.journals[j].sourceType == Some(doc.sourceType)
      && g.journals[j].sourceId == Some(Document(doc.sourceId)) ::
      && g.journals[j].reversing != doc.reversing
      && JournalLines(g, j) == Swapped(Postings(doc.lines))
  }

  ghost predicate ProperStep(g: Graph, step: Step) {
    match step
    case PostDoc(doc) => Proper(g, doc)
    case LinkStep(env, req) => EnvAligned(g.lines, env) && DeferralsOneSided(env, g, req)
    case _ => true
  }

  /** Lines deferred for the linked documents: on accounts where their document has one side only. */
  ghost predicate DeferralsOneSided(env: Env, g: Graph, req: PairRequest) {
    var d, c := Resolve(g, req.debit), Resolve(g, req.credit);
    d.Ok? && c.Ok? ==>
      && DeferredWithin(env, g, d.value, OneSidedLines(g), |g.lines|)
      && DeferredWithin(env, g, c.value, OneSidedLines(g), |g.lines|)
  }

  ghost predicate ProperRun(cfg: Config, g: Graph, steps: seq<Step>)
    requires RunOk(cfg, g, steps)
    decreases |steps|
  {
    steps != [] ==> ProperStep(g, steps[0]) && ProperRun(cfg, Perform(cfg, g, steps[0]), steps[1..])
  }

  /** What such runs keep. */
  ghost predicate Kept(g: Graph) {
    Tidy(g) && Documents(g) && EdgesOneSided(g)
  }

  lemma {:induction false} PostedFiled(g: Graph, doc: Doc)
    requires Documents(g) && DocOk(doc) && LinesOk(g)
    ensures var g' := PostDocument(g, doc);
      && (forall l | 0 <= l < |g'.lines| && !Machinery(g'.lines[l]) :: LineFiled(g', l))
      && forall j | 0 <= j < |g'.journals| && OfDocument(g'.journals[j]) :: JournalFiled(g', j)
  {
    var g' := PostDocument(g, doc);
    var lines := DocLines(doc, |g.journals|, doc.lines);
    assert forall l | |g.lines| <= l < |g'.lines| :: g'.lines[l] == lines[l - |g.lines|];
    forall l | 0 <= l < |g'.lines| && !Machinery(g'.lines[l]) ensures LineFiled(g', l) {
      if l < |g.lines| {
        assert g'.lines[l] == g.lines[l] && LineFiled(g, l);
      } else {
        assert g'.lines[l] == LineOf(doc, |g.journals|, doc.lines[l - |g.lines|]);
      }
    }
    forall j | 0 <= j < |g'.journals| && OfDocument(g'.journals[j]) ensures JournalFiled(g', j) {
      if j < |g.journals| {
        assert g'.journals[j] == g.journals[j] && JournalFiled(g, j);
      } else {
        forall l | |g.lines| <= l < |g'.lines| ensures g'.lines[l].journal == j && !Machinery(g'.lines[l]) {
          assert g'.lines[l] == LineOf(doc, |g.journals|, doc.lines[l - |g.lines|]);
        }
      }
    }
  }

  lemma {:induction false} NewLinesAre(g: Graph, doc: Doc)
    requires DocOk(doc)
    ensures var g' := PostDocument(g, doc);
      && |g'.lines| == |g.lines| + |doc.lines|
      && (forall l | |g.lines| <= l < |g'.lines| :: g'.lines[l].journal == |g.journals|)
      && forall m | 0 <= m < |doc.lines| :: g'.lines[|g.lines| + m] == LineOf(doc, |g.journals|, doc.lines[m])
  {
    var g' := PostDocument(g, doc);
    forall l | |g.lines| <= l < |g'.lines| ensures g'.lines[l].journal == |g.journals| {
      assert g'.lines[l] == DocLines(doc, |g.journals|, doc.lines)[l - |g.lines|];
    }
  }

  lemma {:induction false} JournalLineAt(g: Graph, j: nat, m: nat)
    requires j < |g.journals| && JournalFiled(g, j) && m < g.journals[j].count
    ensures |JournalLines(g, j)| == g.journals[j].count
    ensures JournalLines(g, j)[m] == AsPosting(g.lines[g.journals[j].first + m])
  {
    var stretch := g.lines[g.journals[j].first..g.journals[j].first + g.journals[j].count];
    assert JournalLines(g, j) == AsPostings(stretch);
    assert stretch[m] == g.lines[g.journals[j].first + m];
  }

  lemma {:induction false} SwappedCount(g: Graph, doc: Doc, j: nat)
    requires j < |g.journals| && JournalFiled(g, j) && JournalLines(g, j) == Swapped(Postings(doc.lines))
    ensures g.journals[j].count == |doc.lines|
  {
    var journal := g.journals[j];
    assert JournalLines(g, j) == AsPostings(g.lines[journal.first..journal.first + journal.count]);
  }

  /** A journal's stretch and a later one of the swapped lines face each other. */
  lemma {:induction false} StretchesFace(g: Graph, first: nat, second: nat, lines: seq<PostingLine>, there: int, back: int)
    requires first + |lines| <= |g.lines| && second + |lines| <= |g.lines|
    requires there == second - first && back == first - second
    requires forall m | 0 <= m < |lines| :: Clean(lines[m]) && AsPosting(g.lines[second + m]) == lines[m]
    requires forall m | 0 <= m < |lines| :: AsPosting(g.lines[first + m]) == SwapLine(lines[m])
    ensures FaceStretch(g, first, |lines|, there) && FaceStretch(g, second, |lines|, back)
  {
    forall x | first <= x < first + |lines| ensures FacesAt(g, x, there) {
      var m := x - first;
      assert AsPosting(g.lines[second + m]) == lines[m] && AsPosting(g.lines[first + m]) == SwapLine(lines[m]);
    }
    forall x | second <= x < second + |lines| ensures FacesAt(g, x, back) {
      var m := x - second;
      assert AsPosting(g.lines[second + m]) == lines[m] && AsPosting(g.lines[first + m]) == SwapLine(lines[m]);
    }
  }

  lemma {:induction false} PostedStretches(g: Graph, doc: Doc, j: nat, there: int, back: int)
    requires DocOk(doc) && j < |g.journals| && JournalFiled(g, j)
    requires JournalLines(g, j) == Swapped(Postings(doc.lines))
    requires there == |g.lines| - g.journals[j].first && back == g.journals[j].first - |g.lines|
    ensures g.journals[j].count == |doc.lines|
    ensures FaceStretch(PostDocument(g, doc), g.journals[j].first, |doc.lines|, there)
    ensures FaceStretch(PostDocument(g, doc), |g.lines|, |doc.lines|, back)
  {
    var g', first, lines := PostDocument(g, doc), g.journals[j].first, Postings(doc.lines);
    SwappedCount(g, doc, j);
    NewLinesAre(g, doc);
    forall m | 0 <= m < |lines|
      ensures Clean(lines[m]) && AsPosting(g'.lines[|g.lines| + m]) == lines[m]
      ensures AsPosting(g'.lines[first + m]) == SwapLine(lines[m])
    {
      JournalLineAt(g, j, m);
      assert g'.lines[first + m] == g.lines[first + m];
      assert Clean(doc.lines[m].posting) && g'.lines[|g.lines| + m] == LineOf(doc, |g.journals|, doc.lines[m]);
    }
    StretchesFace(g', first, |g.lines|, lines, there, back);
  }

  lemma {:induction false} FacingIsMirrored(g: Graph, i: nat, j: nat, there: int)
    requires i < |g.journals| && j < |g.journals| && g.journals[i].reversing != g.journals[j].reversing
    requires g.journals[i].count == g.journals[j].count && there == g.journals[j].first - g.journals[i].first
    requires g.journals[i].first + g.journals[i].count <= |g.lines|
    requires g.journals[j].first + g.journals[j].count <= |g.lines|
    requires FaceStretch(g, g.journals[i].first, g.journals[i].count, there)
    ensures Mirrored(g, i, j)
  {
  }

  lemma {:induction false} PostedMirrors(g: Graph, doc: Doc, j: nat)
    requires Documents(g) && DocOk(doc) && Proper(g, doc) && j < |g.journals|
    requires SameSource(PostDocument(g, doc), j, |g.journals|)
    ensures Mirrored(PostDocument(g, doc), j, |g.journals|) && Mirrored(PostDocument(g, doc), |g.journals|, j)
  {
    var g', there, back := PostDocument(g, doc), |g.lines| - g.journals[j].first, g.journals[j].first - |g.lines|;
    assert g'.journals[j] == g.journals[j];
    assert JournalFiled(g, j);
    PostedStretches(g, doc, j, there, back);
    NewLinesAre(g, doc);
    FacingIsMirrored(g', j, |g.journals|, there);
    FacingIsMirrored(g', |g.journals|, j, back);
  }

  lemma {:induction false} PostKeepsDocuments(g: Graph, doc: Doc)
    requires Documents(g) && DocOk(doc) && LinesOk(g) && Proper(g, doc)
    ensures Documents(PostDocument(g, doc))
  {
    var g' := PostDocument(g, doc);
    PostedFiled(g, doc);
    forall i, j | 0 <= i < |g'.journals| && 0 <= j < |g'.journals| && i != j && SameSource(g', i, j)
      ensures Mirrored(g', i, j)
    {
      if i < |g.journals| && j < |g.journals| {
        OldMirrors(g, g', i, j);
      } else {
        NewMirrors(g, doc, i, j);
      }
    }
  }

  lemma {:induction false} NewMirrors(g: Graph, doc: Doc, i: nat, j: nat)
    requires Documents(g) && DocOk(doc) && Proper(g, doc)
    requires (i < |g.journals| && j == |g.journals|) || (i == |g.journals| && j < |g.journals|)
    requires SameSource(PostDocument(g, doc), i, j)
    ensures Mirrored(PostDocument(g, doc), i, j)
  {
    if i < |g.journals| {
      PostedMirrors(g, doc, i);
    } else {
      SourceIsShared(PostDocument(g, doc), i, j);
      PostedMirrors(g, doc, j);
    }
  }

  lemma {:induction false} SourceIsShared(g: Graph, i: nat, j: nat)
    requires i < |g.journals| && j < |g.journals| && SameSource(g, i, j)
    ensures SameSource(g, j, i)
  {
  }

  lemma {:induction false} OldMirrors(g: Graph, g': Graph, i: nat, j: nat)
    requires Documents(g) && g.lines <= g'.lines && g.journals <= g'.journals
    requires i < |g.journals| && j < |g.journals| && i != j && SameSource(g', i, j)
    ensures Mirrored(g', i, j)
  {
    assert g'.journals[i] == g.journals[i] && g'.journals[j] == g.journals[j];
    assert SameSource(g, i, j) && Mirrored(g, i, j);
    StretchStays(g, g', g.journals[i].first, g.journals[i].count, g.journals[j].first - g.journals[i].first);
  }

  lemma {:induction false} PostKeepsOneSided(g: Graph, doc: Doc)
    requires DocOk(doc) && Inv(g) && EdgesOneSided(g) && Documents(g)
    ensures EdgesOneSided(PostDocument(g, doc))
    ensures forall i | 0 <= i < |g.edges| ::
      g.edges[i].debit in OneSidedLines(PostDocument(g, doc)) && g.edges[i].credit in OneSidedLines(PostDocument(g, doc))
  {
    var g' := PostDocument(g, doc);
    NewLinesAre(g, doc);
    EdgeEnds(g);
    forall l: nat | l in OneSidedLines(g) ensures l in OneSidedLines(g') {
      assert g'.lines[l] == g.lines[l];
      if !Machinery(g.lines[l]) {
        assert LineFiled(g, l);
        forall x | 0 <= x < |g'.lines| && !Machinery(g'.lines[x]) && g'.lines[x].journal == g'.lines[l].journal
          && g'.lines[x].account == g'.lines[l].account ensures !Opposite(g', l, x)
        {
          assert x < |g.lines| && g'.lines[x] == g.lines[x] && !Opposite(g, l, x);
        }
      }
    }
  }

  lemma {:induction false} PostKept(g: Graph, doc: Doc)
    requires Kept(g) && DocOk(doc) && Proper(g, doc)
    ensures Mirrors(PostDocument(g, doc)) && Kept(PostDocument(g, doc))
  {
    var g' := PostDocument(g, doc);
    assert LinesOk(g) by {
      Clauses(g);
    }
    PostKeepsDocuments(g, doc);
    PostKeepsOneSided(g, doc);
    forall i | 0 <= i < |g.edges|
      ensures InOrNew(g.edges[i].debit, FacedLines(g'), |g'.lines|)
      ensures InOrNew(g.edges[i].credit, FacedLines(g'), |g'.lines|)
    {
      OneSidedInFaced(g', g.edges[i].debit);
      OneSidedInFaced(g', g.edges[i].credit);
    }
    PostDocumentKeepsSound(g, doc);
    MoreLinesKeepAligned(g, g');
  }

  lemma {:induction false} OneSidedInFaced(g: Graph, l: nat)
    requires Documents(g) && l in OneSidedLines(g)
    ensures l in FacedLines(g)
  {
    if !Machinery(g.lines[l]) {
      OneSidedIsFaced(g, l);
    }
  }

  lemma {:induction false} LinkIsFaced(env: Env, g: Graph, req: PairRequest)
    requires Documents(g) && DeferralsOneSided(env, g, req)
    ensures LinkFaced(env, g, req)
  {
    var d, c := Resolve(g, req.debit), Resolve(g, req.credit);
    if d.Ok? && c.Ok? {
      LocatedIsOneSided(g, req.debit);
      LocatedIsOneSided(g, req.credit);
      OneSidedInFaced(g, d.value);
      OneSidedInFaced(g, c.value);
      forall l: nat | InOrNew(l, OneSidedLines(g), |g.lines|) ensures InOrNew(l, FacedLines(g), |g.lines|) {
        if l in OneSidedLines(g) {
          OneSidedInFaced(g, l);
        }
      }
    }
  }

  lemma {:induction false} LinkKept(cfg: Config, env: Env, g: Graph, req: PairRequest)
    requires Kept(g) && FxApart(cfg) && EnvOk(g, env) && EnvAligned(g.lines, env) && DeferralsOneSided(env, g, req)
    requires Link(cfg, env, g, req).Ok?
    ensures Kept(Link(cfg, env, g, req).value.0)
  {
    LinkIsFaced(env, g, req);
    LinkKeepsTidy(cfg, env, g, req);
    var d, c := Resolve(g, req.debit).value, Resolve(g, req.credit).value;
    ValidPair(cfg, g, d, c, req.amount);
    var applied := ValidatePair(cfg, g, d, c, req.amount).value;
    if applied != 0 {
      LocatedIsOneSided(g, req.debit);
      LocatedIsOneSided(g, req.credit);
      LinkEdgesKeepsInv(cfg, env, g, req, d, c, applied);
      LinkEdgesGrows(cfg, env, g, req, d, c, applied);
      LinkEdgesWithin(cfg, env, g, req, d, c, applied, OneSidedLines(g), |g.lines|);
      LinkEnds(cfg, env, g, req, d, c, applied);
      var (g1, total) := LinkEdges(cfg, env, g, req, d, c, applied).value;
      GrownKept(g, g1, Complete(g1, {d, c}, total).0);
    }
  }

  lemma {:induction false} GrownKept(g: Graph, g1: Graph, g2: Graph)
    requires Documents(g) && Grows(g, g1, g.nextEdge) && SameFlows(g1, g2) && Inv(g2)
    requires Within(g1.edges, OneSidedLines(g), |g.lines|)
    ensures Documents(g2) && EdgesOneSided(g2)
  {
    assert MachineryPosted(g, g2);
    DocumentsStay(g, g2);
    SameFlowWithin(g1.edges, g2.edges, OneSidedLines(g), |g.lines|);
    OneSidedEdgesStay(g, g2);
  }

  lemma {:induction false} UnlinkKept(env: Env, g: Graph, roots: set<nat>)
    requires Kept(g)
    ensures UnlinkClosure(env, g, roots).Ok? && Kept(UnlinkClosure(env, g, roots).value)
  {
    UnlinkClosureKeepsTidy(env, g, roots);
    UnlinkClosureStages(env, g, roots);
    var taken := Select(g.edges, roots, true);
    var js := GeneratedJournals(g, Ids(taken));
    var g1 := ReverseAll(env, g, js).value;
    ReverseAllKeepsInv(env, g, js);
    ReversalsPostOnlyMachinery(env, g, js);
    ReversalsAre(env, g, js);
    var g2 := RemoveEdges(g1, roots);
    RemovedKept(g, g1, roots);
    var ids := Ascending(|g2.lines|, Ends(taken));
    assert forall i | 0 <= i < |ids| :: ids[i] in ids;
    OneSidedPairs(g2);
    PairAllWithin(g2, ids, OneSidedLines(g2), |g2.lines|);
    var g3 := PairAll(g2, ids).value;
    DocumentsStay(g2, g3);
    OneSidedEdgesStay(g2, g3);
  }

  lemma {:induction false} RemovedKept(g: Graph, g1: Graph, roots: set<nat>)
    requires Inv(g) && Documents(g) && EdgesOneSided(g) && OnlyPosts(g, g1) && Inv(RemoveEdges(g1, roots))
    requires forall l | |g.lines| <= l < |g1.lines| :: g1.lines[l].sourceType == Some(RECONCILIATION)
    requires forall j | |g.journals| <= j < |g1.journals| :: IsReversal(g1.journals[j])
    ensures Documents(RemoveEdges(g1, roots)) && EdgesOneSided(RemoveEdges(g1, roots))
    ensures forall l | l in Ends(Select(g.edges, roots, true)) :: l in OneSidedLines(RemoveEdges(g1, roots))
  {
    var g2 := RemoveEdges(g1, roots);
    RemovalQuiet(g, g1, roots);
    assert MachineryPosted(g, g2);
    DocumentsStay(g, g2);
    SelectWithin(g.edges, roots, false, OneSidedLines(g), |g.lines|);
    OneSidedEdgesStay(g, g2);
    SelectWithin(g.edges, roots, true, OneSidedLines(g), |g.lines|);
    EndsWithin(Select(g.edges, roots, true), OneSidedLines(g), |g.lines|);
    assert EdgesOk(g) by {
      Clauses(g);
    }
    TakenEndsInLines(g, roots);
    forall l | l in Ends(Select(g.edges, roots, true)) ensures l in OneSidedLines(g2) {
      OneSidedStays(g, g2, l);
    }
  }

  lemma {:induction false} VoidKept(g: Graph, j: nat)
    requires Kept(g)
    ensures Kept(VoidJournal(g, j))
  {
    var g' := VoidJournal(g, j);
    VoidKeepsTidy(g, j);
    DocumentsStay(g, g');
    OneSidedEdgesStay(g, g');
  }

  lemma {:induction false} StepKept(cfg: Config, g: Graph, step: Step)
    requires Kept(g) && StepOk(g, step) && FxApart(cfg) && ProperStep(g, step)
    ensures AlignedStep(cfg, g, step) && Kept(Perform(cfg, g, step))
  {
    match step
    case PostDoc(doc) => PostKept(g, doc);
    case VoidOne(j) => VoidKept(g, j);
    case LinkStep(env, req) =>
      LinkIsFaced(env, g, req);
      if Link(cfg, env, g, req).Ok? {
        LinkKept(cfg, env, g, req);
      }
    case UnlinkStep(env, id) => UnlinkKept(env, g, {id});
    case UnlinkPairStep(env, d, c) =>
      if Resolve(g, d).Ok? && Resolve(g, c).Ok? {
        UnlinkKept(env, g, Between(g.edges, Resolve(g, d).value, Resolve(g, c).value));
      }
  }

  lemma {:induction false} ProperIsAligned(cfg: Config, g: Graph, steps: seq<Step>)
    requires Kept(g) && FxApart(cfg) && RunOk(cfg, g, steps) && ProperRun(cfg, g, steps)
    ensures AlignedRun(cfg, g, steps)
    decreases |steps|
  {
    if steps == [] {
    } else {
      StepKept(cfg, g, steps[0]);
      ProperIsAligned(cfg, Perform(cfg, g, steps[0]), steps[1..]);
    }
  }

  /**
   * When producers post each source once per kind, swap the lines of a document to reverse it,
   * and defer tax only where a document has one side, open items agree with the books after
   * every run. Nothing is asked of the lines that are linked: a locator finds a line only when
   * it is alone on its account.
   */
  lemma {:induction false} SwappedReversalsAgree(cfg: Config, steps: seq<Step>, account: nat)
    requires FxApart(cfg) && RunOk(cfg, EMPTY, steps) && ProperRun(cfg, EMPTY, steps)
    ensures var g := Run(cfg, EMPTY, steps);
      && OpenItems(g, |g.lines|, account) == Booked(g.lines, account)
      && ((forall l | 0 <= l < |g.lines| :: g.lines[l].base == g.lines[l].debit + g.lines[l].credit)
          ==> OpenItems(g, |g.lines|, account) == Net(g.ledger, account))
  {
    EmptyIsTidy();
    ProperIsAligned(cfg, EMPTY, steps);
    OpenItemsAgree(cfg, steps, account);
  }
}
