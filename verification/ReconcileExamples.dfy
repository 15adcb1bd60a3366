/**
 * What the concrete runs share: documents posted on top of one another, and where their lines are.
 */
module ReconcileExamples {
  import opened Wrappers
  import opened GlPosting
  import opened ReconcileGraph
  import opened ReconcileReversals
  import opened ReconcileRuns

  /** A line of one customer's, in company currency. */
  function Item(account: nat, debit: nat, credit: nat): DocLine {
    DocLine(PostingLine(account, debit, credit, Some("customer"), Some(7)), debit + credit, RATE_ONE)
  }

  /** Journal `j` is the document, posted, and its lines start at `first`. */
  ghost predicate DocAt(g: Graph, doc: Doc, first: nat, j: nat) {
    && DocOk(doc) && first + |doc.lines| <= |g.lines| && j < |g.journals|
    && g.journals[j].reversing == doc.reversing && g.journals[j].status == JournalStatus.Posted
    && forall i | 0 <= i < |doc.lines| :: g.lines[first + i] == LineOf(doc, j, doc.lines[i])
  }

  lemma {:induction false} DocAppends(g: Graph, doc: Doc)
    requires DocOk(doc)
    ensures DocAt(PostDocument(g, doc), doc, |g.lines|, |g.journals|)
  {
    var g', lines := PostDocument(g, doc), DocLines(doc, |g.journals|, doc.lines);
    forall i | 0 <= i < |doc.lines| ensures g'.lines[|g.lines| + i] == LineOf(doc, |g.journals|, doc.lines[i]) {
      assert g'.lines[|g.lines| + i] == lines[i];
    }
  }

  /** A document posted on top of a reachable state. */
  lemma {:induction false} DocPosts(cfg: Config, g: Graph, doc: Doc) returns (g': Graph)
    requires Reachable(cfg, g) && Sound(g) && DocOk(doc)
    ensures Reachable(cfg, g') && Sound(g') && DocAt(g', doc, |g.lines|, |g.journals|)
    ensures |g'.lines| == |g.lines| + |doc.lines| && g.lines <= g'.lines
    ensures |g'.journals| == |g.journals| + 1 && g.journals <= g'.journals
    ensures g'.edges == g.edges && g'.nextEdge == g.nextEdge
  {
    g' := PostDocument(g, doc);
    PostDocumentKeepsSound(g, doc);
    StepReaches(cfg, g, PostDoc(doc));
    DocAppends(g, doc);
  }

  lemma {:induction false} DocStays(g: Graph, g': Graph, doc: Doc, first: nat, j: nat)
    requires DocAt(g, doc, first, j) && g.lines <= g'.lines && g.journals <= g'.journals
    ensures DocAt(g', doc, first, j)
  {
    forall i | 0 <= i < |doc.lines| ensures g'.lines[first + i] == LineOf(doc, j, doc.lines[i]) {
      assert g'.lines[first + i] == g.lines[first + i];
    }
  }

  /** One of its lines. */
  lemma {:induction false} DocLineAt(g: Graph, doc: Doc, first: nat, j: nat, i: nat, l: nat)
    requires DocAt(g, doc, first, j) && i < |doc.lines| && l == first + i
    ensures l < |g.lines| && Clean(doc.lines[i].posting) && g.lines[l] == LineOf(doc, j, doc.lines[i])
  {
  }

  /** Two documents posted from the start. */
  lemma {:induction false} PostTwo(cfg: Config, a: Doc, b: Doc) returns (g: Graph)
    requires DocOk(a) && DocOk(b)
    ensures Reachable(cfg, g) && Sound(g) && g.edges == [] && g.nextEdge == 0
    ensures |g.lines| == |a.lines| + |b.lines| && |g.journals| == 2
    ensures DocAt(g, a, 0, 0) && DocAt(g, b, |a.lines|, 1)
  {
    EmptyReaches(cfg);
    EmptyIsTidy();
    var g1 := DocPosts(cfg, EMPTY, a);
    g := DocPosts(cfg, g1, b);
    DocStays(g1, g, a, 0, 0);
  }
}
