/**
 * Runs of the posting books: posts, late commits that lost sight of the books, approvals,
 * voids, retries, and stops between a void's reversal and its stamp. Debits equal credits
 * throughout, a repeated request has one effect, and a voided journal nets to zero with its
 * single reversal.
 */
module PostingRuns {
  import opened Wrappers
  import opened GlPosting
  import opened PostingBooks

  // ------------------------------------------------------------------ the invariant

  /** The ledger rows of one journal, in order. */
  function RowsOf(ledger: seq<Row>, j: nat): seq<PostingLine> {
    if ledger == [] then []
    else
      var init := RowsOf(ledger[..|ledger| - 1], j);
      if ledger[|ledger| - 1].journal == j then init + [ledger[|ledger| - 1].line] else init
  }

  function Lines(ledger: seq<Row>): seq<PostingLine> {
    if ledger == [] then [] else Lines(ledger[..|ledger| - 1]) + [ledger[|ledger| - 1].line]
  }

  predicate InLedger(s: Status) {
    s.Posted? || s.Voided?
  }

  /** A posted or voided journal has its lines in the ledger exactly once; any other has none there. */
  ghost predicate LedgerOk(b: Books) {
    && (forall j | 0 <= j < |b.journals| ::
      RowsOf(b.ledger, j) == if InLedger(b.journals[j].status) then b.journals[j].lines else [])
    && forall j | j >= |b.journals| :: RowsOf(b.ledger, j) == []
  }

  /** Every post is for a journal in the ledger, and no journal has two. */
  ghost predicate PostsOk(b: Books) {
    && (forall i | 0 <= i < |b.posts| ::
      b.posts[i].journal < |b.journals| && InLedger(b.journals[b.posts[i].journal].status))
    && forall i, k | 0 <= i < k < |b.posts| :: b.posts[i].journal != b.posts[k].journal
  }

  /** Keys are never shared; nor is a source and kind among keyless posts. */
  ghost predicate KeysOk(b: Books) {
    && (forall i, k | 0 <= i < k < |b.posts| && b.posts[i].key.Some? :: b.posts[i].key != b.posts[k].key)
    && (forall i, k | 0 <= i < k < |b.posts| && b.posts[i].key.None? && b.posts[k].key.None? ::
      b.posts[i].source != b.posts[k].source || b.posts[i].kind != b.posts[k].kind)
    && forall i | 0 <= i < |b.posts| && b.posts[i].key.Some? && b.posts[i].key.value.JournalKey? ::
      b.posts[i].journal == b.posts[i].key.value.journal
  }

  /** A void's post reverses an original post of its journal, line for line. */
  ghost predicate VoidPost(b: Books, i: nat, j: nat)
    requires i < |b.posts|
  {
    && b.posts[i].key == Some(VoidKey(j)) && j < |b.journals| && b.posts[i].journal < |b.journals|
    && b.journals[b.posts[i].journal].lines == Swapped(b.journals[j].lines)
  }

  ghost predicate VoidsOk(b: Books) {
    forall i | 0 <= i < |b.posts| && b.posts[i].key.Some? && b.posts[i].key.value.VoidKey? ::
      VoidPost(b, i, b.posts[i].key.value.journal)
  }

  ghost predicate HasVoid(b: Books, j: nat) {
    exists i | 0 <= i < |b.posts| :: b.posts[i].key == Some(VoidKey(j))
  }

  ghost predicate StampsOk(b: Books) {
    forall j | 0 <= j < |b.journals| && b.journals[j].status.Voided? :: HasVoid(b, j)
  }

  ghost predicate BooksSound(b: Books) {
    LedgerOk(b) && PostsOk(b) && KeysOk(b) && VoidsOk(b) && StampsOk(b) && Balanced(Lines(b.ledger))
  }

  // ------------------------------------------------------------------ appending rows

  lemma {:induction false} RowsAppend(ledger: seq<Row>, more: seq<Row>, j: nat)
    ensures RowsOf(ledger + more, j) == RowsOf(ledger, j) + RowsOf(more, j)
  {
    if more == [] {
      assert ledger + more == ledger;
    } else {
      var k := |more| - 1;
      assert (ledger + more)[..|ledger + more| - 1] == ledger + more[..k];
      RowsAppend(ledger, more[..k], j);
    }
  }

  lemma {:induction false} RowsForOne(journal: nat, lines: seq<PostingLine>, j: nat)
    ensures RowsOf(RowsFor(journal, lines), j) == if j == journal then lines else []
  {
    if lines == [] {
    } else {
      var k := |lines| - 1;
      var rows := RowsFor(journal, lines);
      RowsForOne(journal, lines[..k], j);
      assert rows[..|rows| - 1] == RowsFor(journal, lines[..k]);
      assert lines == lines[..k] + [lines[k]];
    }
  }

  lemma {:induction false} LinesFor(ledger: seq<Row>, journal: nat, lines: seq<PostingLine>)
    ensures Lines(ledger + RowsFor(journal, lines)) == Lines(ledger) + lines
  {
    if lines == [] {
      assert ledger + RowsFor(journal, lines) == ledger;
    } else {
      var k := |lines| - 1;
      var rows := RowsFor(journal, lines);
      assert rows[..k] == RowsFor(journal, lines[..k]);
      LinesFor(ledger, journal, lines[..k]);
      assert (ledger + rows)[..|ledger + rows| - 1] == ledger + RowsFor(journal, lines[..k]);
      assert lines == lines[..k] + [lines[k]];
    }
  }

  lemma {:induction false} JudgedBalance(env: Env, lines: seq<PostingLine>)
    requires Judge(env, lines).None?
    ensures Balanced(lines) && AllClean(lines) && |lines| >= 2
  {
  }

  /** The ledger after one journal's rows were appended. */
  lemma {:induction false} AppendedLedger(b: Books, j: nat, lines: seq<PostingLine>, x: nat)
    ensures RowsOf(b.ledger + RowsFor(j, lines), x) == RowsOf(b.ledger, x) + if x == j then lines else []
  {
    RowsAppend(b.ledger, RowsFor(j, lines), x);
    RowsForOne(j, lines, x);
  }

  lemma {:induction false} AppendedBalance(b: Books, j: nat, lines: seq<PostingLine>)
    requires Balanced(Lines(b.ledger)) && Balanced(lines)
    ensures Balanced(Lines(b.ledger + RowsFor(j, lines)))
  {
    LinesFor(b.ledger, j, lines);
    Append(Lines(b.ledger), lines);
  }

  // ------------------------------------------------------------------ the commits keep the invariant

  /** A void's request carries the swapped lines of its journal. */
  ghost predicate RequestOk(b: Books, r: Request) {
    && (r.key.Some? ==> !r.key.value.JournalKey?)
    && (r.key.Some? && r.key.value.VoidKey? ==>
        r.key.value.journal < |b.journals| && r.lines == Swapped(b.journals[r.key.value.journal].lines))
  }

  lemma {:induction false} FreshKeys(b: Books, p: Post, r: Request)
    requires KeysOk(b) && !Taken(b.posts, r)
    requires p.key == r.key && p.source == r.source && p.kind == r.kind
    requires p.key.Some? && p.key.value.JournalKey? ==> p.journal == p.key.value.journal
    ensures KeysOk(b.(posts := b.posts + [p]))
  {
  }

  lemma {:induction false} CommitKeepsLedger(b: Books, r: Request)
    requires BooksSound(b) && Balanced(r.lines)
    ensures LedgerOk(Commit(b, r).0) && Balanced(Lines(Commit(b, r).0.ledger))
  {
    var b' := Commit(b, r).0;
    if !Taken(b.posts, r) {
      var j := |b.journals|;
      forall x: nat ensures RowsOf(b'.ledger, x) == RowsOf(b.ledger, x) + if x == j then r.lines else [] {
        AppendedLedger(b, j, r.lines, x);
      }
      AppendedBalance(b, j, r.lines);
    }
  }

  /** Voids and stamps survive when books grow and no journal is newly stamped. */
  lemma {:induction false} VoidsCarry(b: Books, b': Books)
    requires VoidsOk(b) && StampsOk(b) && b.posts <= b'.posts && |b.journals| <= |b'.journals|
    requires forall j | 0 <= j < |b.journals| :: b'.journals[j].lines == b.journals[j].lines
    requires forall j | 0 <= j < |b'.journals| && b'.journals[j].status.Voided? ::
      j < |b.journals| && b.journals[j].status.Voided?
    requires forall i | |b.posts| <= i < |b'.posts| && b'.posts[i].key.Some? && b'.posts[i].key.value.VoidKey? ::
      VoidPost(b', i, b'.posts[i].key.value.journal)
    ensures VoidsOk(b') && StampsOk(b')
  {
    forall i | 0 <= i < |b'.posts| && b'.posts[i].key.Some? && b'.posts[i].key.value.VoidKey?
      ensures VoidPost(b', i, b'.posts[i].key.value.journal)
    {
      if i < |b.posts| {
        assert VoidPost(b, i, b.posts[i].key.value.journal);
      }
    }
    forall x | 0 <= x < |b'.journals| && b'.journals[x].status.Voided? ensures HasVoid(b', x) {
      HasVoidCarries(b, b', x);
    }
  }

  lemma {:induction false} HasVoidCarries(b: Books, b': Books, j: nat)
    requires HasVoid(b, j) && b.posts <= b'.posts
    ensures HasVoid(b', j)
  {
    var i :| 0 <= i < |b.posts| && b.posts[i].key == Some(VoidKey(j));
    assert b'.posts[i].key == Some(VoidKey(j));
  }

  lemma {:induction false} CommitKeepsSound(b: Books, r: Request)
    requires BooksSound(b) && Balanced(r.lines) && RequestOk(b, r)
    ensures BooksSound(Commit(b, r).0)
  {
    var b' := Commit(b, r).0;
    CommitKeepsLedger(b, r);
    if !Taken(b.posts, r) {
      FreshKeys(b, b'.posts[|b.posts|], r);
      VoidsCarry(b, b');
    }
  }

  /** A request as a producer or a void may make it. */
  ghost predicate Proper(b: Books, r: Request) {
    match r.key
    case None => true
    case Some(ProducerKey(_)) => true
    case Some(JournalKey(_)) => false
    case Some(VoidKey(j)) =>
      && j < |b.journals| && r.kind.Reversal? && r.reverses.Some?
      && (r.reverses.value < |b.posts| ==> b.posts[r.reverses.value].journal == j)
  }

  lemma {:induction false} PostKeepsSound(b: Books, env: Env, r: Request)
    requires BooksSound(b) && Proper(b, r)
    ensures BooksSound(PostRequest(b, env, r).0)
  {
    if FindPost(b.posts, r).None? {
      var lines := if r.kind.Reversal? then ReversalLines(b, r) else Some(r.lines);
      if lines.Some? && Judge(env, lines.value).None? {
        JudgedBalance(env, lines.value);
        CommitKeepsSound(b, r.(lines := lines.value));
      }
    }
  }

  /** Appending to the audit trail changes nothing else. */
  lemma {:induction false} StatusKeepsSound(b: Books, j: nat, s: Status)
    requires BooksSound(b) && j < |b.journals| && InLedger(s) == InLedger(b.journals[j].status)
    requires s.Voided? ==> HasVoid(b, j)
    ensures BooksSound(SetStatus(b, j, s))
  {
    StatusKeepsBooks(b, j, s);
    StatusKeepsVoids(b, j, s);
  }

  lemma {:induction false} StatusKeepsBooks(b: Books, j: nat, s: Status)
    requires LedgerOk(b) && PostsOk(b) && KeysOk(b) && j < |b.journals|
    requires InLedger(s) == InLedger(b.journals[j].status)
    ensures LedgerOk(SetStatus(b, j, s)) && PostsOk(SetStatus(b, j, s)) && KeysOk(SetStatus(b, j, s))
  {
  }

  lemma {:induction false} StatusKeepsVoids(b: Books, j: nat, s: Status)
    requires VoidsOk(b) && StampsOk(b) && j < |b.journals| && (s.Voided? ==> HasVoid(b, j))
    ensures VoidsOk(SetStatus(b, j, s)) && StampsOk(SetStatus(b, j, s))
  {
    var b' := SetStatus(b, j, s);
    forall i | 0 <= i < |b'.posts| && b'.posts[i].key.Some? && b'.posts[i].key.value.VoidKey?
      ensures VoidPost(b', i, b'.posts[i].key.value.journal)
    {
      assert VoidPost(b, i, b.posts[i].key.value.journal);
    }
    forall x | 0 <= x < |b'.journals| && b'.journals[x].status.Voided? ensures HasVoid(b', x) {
      assert HasVoid(b, x);
      HasVoidCarries(b, b', x);
    }
  }

  lemma {:induction false} JournalCommitKeepsLedger(b: Books, j: nat)
    requires BooksSound(b) && j < |b.journals| && !InLedger(b.journals[j].status) && Balanced(b.journals[j].lines)
    requires CommitJournal(b, j).Some?
    ensures LedgerOk(CommitJournal(b, j).value) && Balanced(Lines(CommitJournal(b, j).value.ledger))
  {
    var b' := CommitJournal(b, j).value;
    var lines := b.journals[j].lines;
    forall x: nat ensures RowsOf(b'.ledger, x) == RowsOf(b.ledger, x) + if x == j then lines else [] {
      AppendedLedger(b, j, lines, x);
    }
    AppendedBalance(b, j, lines);
  }

  lemma {:induction false} JournalCommitKeepsSound(b: Books, j: nat)
    requires BooksSound(b) && j < |b.journals| && !InLedger(b.journals[j].status) && Balanced(b.journals[j].lines)
    requires CommitJournal(b, j).Some?
    ensures BooksSound(CommitJournal(b, j).value)
  {
    var b' := CommitJournal(b, j).value;
    JournalCommitKeepsLedger(b, j);
    FreshKeys(b, b'.posts[|b.posts|], JournalRequest(b, j));
    assert PostsOk(b');
    VoidsCarry(b, b');
  }

  // ------------------------------------------------------------------ runs

  /**
   * The books with the calls under way: journals a posting call has read as approved, voids
   * that passed their checks, and voids whose reversal is in and whose stamp is still to come.
   */
  datatype World = World(books: Books, reading: set<nat>, voiding: set<(nat, nat)>, stamping: set<nat>)

  const START := World(EMPTY, {}, {}, {})

  datatype Event =
    | Write(lines: seq<PostingLine>, source: Source, createdBy: Option<nat>)
    | PostIt(env: Env, request: Request)
    | CommitLate(env: Env, request: Request)
    | SubmitIt(journal: nat, actor: Option<nat>)
    | ApproveIt(env: Env, journal: nat, actor: Option<nat>, selfAllowed: bool)
    | RejectIt(journal: nat)
    | PostJournalIt(env: Env, journal: nat)
    | ReadJournal(env: Env, journal: nat)
    | CommitRead(journal: nat)
    | VoidRead(journal: nat)
    | VoidPostIt(env: Env, journal: nat, original: nat)
    | VoidStamp(journal: nat)

  /** Producers use their own keys or none. */
  predicate FromProducer(e: Event) {
    (e.PostIt? || e.CommitLate?) ==> e.request.key.None? || e.request.key.value.ProducerKey?
  }

  /** A commit whose lookup found nothing a while ago: only the unique keys still decide. */
  function LateCommit(b: Books, env: Env, r: Request): Books {
    var lines := if r.kind.Reversal? then ReversalLines(b, r) else Some(r.lines);
    if lines.None? || Judge(env, lines.value).Some? then b else Commit(b, r.(lines := lines.value)).0
  }

  /** The verbs that run to their end in one step. */
  predicate Whole(e: Event) {
    e.Write? || e.PostIt? || e.CommitLate? || e.SubmitIt? || e.ApproveIt? || e.RejectIt? || e.PostJournalIt?
  }

  function Apply(b: Books, e: Event): Books
    requires Whole(e)
  {
    match e
    case Write(lines, source, createdBy) =>
      b.(journals := b.journals + [Journal(Draft, lines, source, createdBy, None)])
    case PostIt(env, r) => PostRequest(b, env, r).0
    case CommitLate(env, r) => LateCommit(b, env, r)
    case SubmitIt(j, actor) => Submit(b, j, actor).0
    case ApproveIt(env, j, actor, selfAllowed) => Approve(b, env, j, actor, selfAllowed).0
    case RejectIt(j) => Reject(b, j).0
    case PostJournalIt(env, j) => PostJournal(b, env, j).0
  }

  function Perform(w: World, e: Event): World {
    var b := w.books;
    if Whole(e) then w.(books := Apply(b, e))
    else match e
      case ReadJournal(env, j) =>
        if j < |b.journals| && b.journals[j].status.Approved? && Judge(env, b.journals[j].lines).None? then
          w.(reading := w.reading + {j})
        else w
      case CommitRead(j) =>
        if j in w.reading && j < |b.journals| && CommitJournal(b, j).Some? then
          w.(books := CommitJournal(b, j).value)
        else w
      case VoidRead(j) =>
        if VoidCheck(b, j).Ok? then w.(voiding := w.voiding + {(j, VoidCheck(b, j).value)}) else w
      case VoidPostIt(env, j, original) =>
        if (j, original) !in w.voiding then w
        else
          var (b', r) := PostRequest(b, env, VoidRequest(j, original));
          w.(books := b', stamping := if r.Ok? then w.stamping + {j} else w.stamping)
      case VoidStamp(j) =>
        if j in w.stamping && j < |b.journals| then w.(books := SetStatus(b, j, Voided)) else w
  }

  function Run(w: World, events: seq<Event>): World
    decreases |events|
  {
    if events == [] then w else Run(Perform(w, events[0]), events[1..])
  }

  predicate AllProducers(events: seq<Event>) {
    forall i | 0 <= i < |events| :: FromProducer(events[i])
  }

  ghost predicate HasJournalKey(b: Books, j: nat) {
    exists i | 0 <= i < |b.posts| :: b.posts[i].key == Some(JournalKey(j))
  }

  ghost predicate ReadingOk(w: World) {
    forall j | j in w.reading ::
      && j < |w.books.journals| && Balanced(w.books.journals[j].lines)
      && (w.books.journals[j].status.Approved? || HasJournalKey(w.books, j))
  }

  ghost predicate VoidingOk(w: World) {
    && (forall v | v in w.voiding ::
      v.0 < |w.books.journals| && v.1 < |w.books.posts| && w.books.posts[v.1].journal == v.0)
    && forall j | j in w.stamping ::
      j < |w.books.journals| && InLedger(w.books.journals[j].status) && HasVoid(w.books, j)
  }

  ghost predicate Sane(w: World) {
    BooksSound(w.books) && ReadingOk(w) && VoidingOk(w)
  }

  /** Books only grow: posts stay, journals keep their lines, and what is in the ledger stays in. */
  ghost predicate Extends(a: Books, b: Books) {
    && a.posts <= b.posts && |a.journals| <= |b.journals|
    && forall j | 0 <= j < |a.journals| ::
      && b.journals[j].lines == a.journals[j].lines
      && (InLedger(a.journals[j].status) ==> InLedger(b.journals[j].status))
      && (a.journals[j].status.Approved? ==> b.journals[j].status.Approved? || HasJournalKey(b, j))
  }

  lemma {:induction false} ExtendsKeepsReading(w: World, b: Books)
    requires ReadingOk(w) && VoidingOk(w) && Extends(w.books, b)
    ensures ReadingOk(w.(books := b)) && VoidingOk(w.(books := b))
  {
    forall j | j in w.reading && HasJournalKey(w.books, j) ensures HasJournalKey(b, j) {
      var i :| 0 <= i < |w.books.posts| && w.books.posts[i].key == Some(JournalKey(j));
      assert b.posts[i].key == Some(JournalKey(j));
    }
    forall j | j in w.stamping ensures HasVoid(b, j) {
      var i :| 0 <= i < |w.books.posts| && w.books.posts[i].key == Some(VoidKey(j));
      assert b.posts[i].key == Some(VoidKey(j));
    }
  }

  lemma {:induction false} CommitExtends(b: Books, r: Request)
    ensures Extends(b, Commit(b, r).0)
  {
  }

  lemma {:induction false} PostExtends(b: Books, env: Env, r: Request)
    ensures Extends(b, PostRequest(b, env, r).0)
  {
    var lines := if r.kind.Reversal? then ReversalLines(b, r) else Some(r.lines);
    if lines.Some? {
      CommitExtends(b, r.(lines := lines.value));
    }
  }

  lemma {:induction false} JournalCommitExtends(b: Books, j: nat)
    requires j < |b.journals| && CommitJournal(b, j).Some?
    ensures Extends(b, CommitJournal(b, j).value)
  {
    var b' := CommitJournal(b, j).value;
    assert b'.posts[|b.posts|].key == Some(JournalKey(j));
    assert HasJournalKey(b', j);
  }

  lemma {:induction false} PostJournalSafe(b: Books, env: Env, j: nat)
    requires BooksSound(b)
    ensures BooksSound(PostJournal(b, env, j).0) && Extends(b, PostJournal(b, env, j).0)
  {
    if j < |b.journals| && b.journals[j].status.Approved? && Judge(env, b.journals[j].lines).None? {
      JudgedBalance(env, b.journals[j].lines);
      if CommitJournal(b, j).Some? {
        JournalCommitKeepsSound(b, j);
        JournalCommitExtends(b, j);
      }
    }
  }

  lemma {:induction false} ApproveSafe(b: Books, env: Env, j: nat, actor: Option<nat>, selfAllowed: bool)
    requires BooksSound(b)
    ensures BooksSound(Approve(b, env, j, actor, selfAllowed).0) && Extends(b, Approve(b, env, j, actor, selfAllowed).0)
  {
    if j < |b.journals| && b.journals[j].status.Pending? && !(OwnJournal(b, j, actor) && !selfAllowed) {
      StatusKeepsSound(b, j, Approved);
      PostJournalSafe(SetStatus(b, j, Approved), env, j);
    }
  }

  lemma {:induction false} SubmitSafe(b: Books, j: nat, actor: Option<nat>)
    requires BooksSound(b)
    ensures BooksSound(Submit(b, j, actor).0) && Extends(b, Submit(b, j, actor).0)
  {
    if j < |b.journals| && b.journals[j].status.Draft? {
      StatusKeepsSound(b, j, Pending);
      var b1, b2 := SetStatus(b, j, Pending), Submit(b, j, actor).0;
      SameButAuthors(b1, b2);
    }
  }

  lemma {:induction false} SameButAuthors(a: Books, b: Books)
    requires BooksSound(a) && b.posts == a.posts && b.ledger == a.ledger && |b.journals| == |a.journals|
    requires forall j | 0 <= j < |a.journals| ::
      b.journals[j].status == a.journals[j].status && b.journals[j].lines == a.journals[j].lines
    ensures BooksSound(b)
  {
    VoidsCarry(a, b);
  }

  lemma {:induction false} WriteSafe(b: Books, j: Journal)
    requires BooksSound(b) && j.status.Draft?
    ensures var b' := b.(journals := b.journals + [j]); BooksSound(b') && Extends(b, b')
  {
    var b' := b.(journals := b.journals + [j]);
    VoidsCarry(b, b');
  }

  lemma {:induction false} VoidPosted(w: World, env: Env, j: nat, original: nat)
    requires Sane(w) && (j, original) in w.voiding
    ensures Sane(Perform(w, VoidPostIt(env, j, original)))
  {
    var r := VoidRequest(j, original);
    var (b', result) := PostRequest(w.books, env, r);
    PostKeepsSound(w.books, env, r);
    PostExtends(w.books, env, r);
    ExtendsKeepsReading(w, b');
    if result.Ok? {
      FirstIsFound(w.books, env, r);
      assert InLedger(w.books.journals[j].status);
      assert HasVoid(b', j);
      MayStamp(w.(books := b'), j);
    }
  }

  lemma {:induction false} MayStamp(w: World, j: nat)
    requires Sane(w) && j < |w.books.journals| && InLedger(w.books.journals[j].status) && HasVoid(w.books, j)
    ensures Sane(w.(stamping := w.stamping + {j}))
  {
  }

  lemma {:induction false} ApplySafe(b: Books, e: Event)
    requires BooksSound(b) && Whole(e) && FromProducer(e)
    ensures BooksSound(Apply(b, e)) && Extends(b, Apply(b, e))
  {
    match e
    case Write(lines, source, createdBy) => WriteSafe(b, Journal(Draft, lines, source, createdBy, None));
    case PostIt(env, r) =>
      PostKeepsSound(b, env, r);
      PostExtends(b, env, r);
    case CommitLate(env, r) => LateKeepsSound(b, env, r);
    case SubmitIt(j, actor) => SubmitSafe(b, j, actor);
    case ApproveIt(env, j, actor, selfAllowed) => ApproveSafe(b, env, j, actor, selfAllowed);
    case RejectIt(j) => RejectSafe(b, j);
    case PostJournalIt(env, j) => PostJournalSafe(b, env, j);
  }

  lemma {:induction false} RejectSafe(b: Books, j: nat)
    requires BooksSound(b)
    ensures BooksSound(Reject(b, j).0) && Extends(b, Reject(b, j).0)
  {
    if j < |b.journals| && (b.journals[j].status.Draft? || b.journals[j].status.Pending?) {
      StatusKeepsSound(b, j, Rejected);
    }
  }

  lemma {:induction false} StampSafe(w: World, j: nat)
    requires Sane(w) && j in w.stamping
    ensures Sane(Perform(w, VoidStamp(j)))
  {
    StatusKeepsSound(w.books, j, Voided);
    ExtendsKeepsReading(w, SetStatus(w.books, j, Voided));
  }

  lemma {:induction false} PerformKeepsSane(w: World, e: Event)
    requires Sane(w) && FromProducer(e)
    ensures Sane(Perform(w, e))
  {
    var b := w.books;
    if Whole(e) {
      ApplySafe(b, e);
      ExtendsKeepsReading(w, Apply(b, e));
    } else {
      match e
      case ReadJournal(env, j) =>
        if j < |b.journals| && Judge(env, b.journals[j].lines).None? {
          JudgedBalance(env, b.journals[j].lines);
        }
      case CommitRead(j) =>
        if j in w.reading && CommitJournal(b, j).Some? {
          CommitReadSafe(w, j);
        }
      case VoidRead(j) =>
      case VoidPostIt(env, j, original) =>
        if (j, original) in w.voiding {
          VoidPosted(w, env, j, original);
        }
      case VoidStamp(j) =>
        if j in w.stamping {
          StampSafe(w, j);
        }
    }
  }

  lemma {:induction false} LateKeepsSound(b: Books, env: Env, r: Request)
    requires BooksSound(b) && (r.key.None? || r.key.value.ProducerKey?)
    ensures BooksSound(LateCommit(b, env, r)) && Extends(b, LateCommit(b, env, r))
  {
    var lines := if r.kind.Reversal? then ReversalLines(b, r) else Some(r.lines);
    if lines.Some? && Judge(env, lines.value).None? {
      JudgedBalance(env, lines.value);
      CommitKeepsSound(b, r.(lines := lines.value));
      CommitExtends(b, r.(lines := lines.value));
    }
  }

  lemma {:induction false} KeyStops(b: Books, j: nat)
    requires j < |b.journals|
    ensures HasJournalKey(b, j) ==> CommitJournal(b, j).None?
  {
    if HasJournalKey(b, j) {
      var i :| 0 <= i < |b.posts| && b.posts[i].key == Some(JournalKey(j));
      assert Conflicts(b.posts[i], JournalRequest(b, j));
    }
  }

  /** A second posting of a journal, however late, is stopped by the key of the first. */
  lemma {:induction false} CommitReadSafe(w: World, j: nat)
    requires Sane(w) && j in w.reading && CommitJournal(w.books, j).Some?
    ensures Sane(w.(books := CommitJournal(w.books, j).value))
  {
    KeyStops(w.books, j);
    JournalCommitKeepsSound(w.books, j);
    JournalCommitExtends(w.books, j);
    ExtendsKeepsReading(w, CommitJournal(w.books, j).value);
  }

  lemma {:induction false} RunKeepsSane(w: World, events: seq<Event>)
    requires Sane(w) && AllProducers(events)
    ensures Sane(Run(w, events))
    decreases |events|
  {
    if events == [] {
    } else {
      PerformKeepsSane(w, events[0]);
      RunKeepsSane(Perform(w, events[0]), events[1..]);
    }
  }

  lemma {:induction false} StartIsSane()
    ensures Sane(START)
  {
  }

  // ------------------------------------------------------------------ what every run keeps

  /** After every run the ledger's debits equal its credits. */
  lemma {:induction false} DebitsEqualCredits(events: seq<Event>)
    requires AllProducers(events)
    ensures Balanced(Lines(Run(START, events).books.ledger))
  {
    StartIsSane();
    RunKeepsSane(START, events);
  }

  /** At most one post under a key: in particular one posting of a journal and one void of it. */
  lemma {:induction false} OnePostPerKey(events: seq<Event>, i: nat, k: nat)
    requires AllProducers(events)
    requires i < k < |Run(START, events).books.posts|
    ensures var posts := Run(START, events).books.posts;
      posts[i].key.Some? ==> posts[i].key != posts[k].key
  {
    StartIsSane();
    RunKeepsSane(START, events);
  }

  /** A voided journal and its one reversal cancel on every account. */
  lemma {:induction false} VoidedNetsToZero(events: seq<Event>, j: nat)
    requires AllProducers(events)
    requires j < |Run(START, events).books.journals| && Run(START, events).books.journals[j].status.Voided?
    ensures var b := Run(START, events).books;
      exists i | 0 <= i < |b.posts| :: b.posts[i].key == Some(VoidKey(j))
        && forall a :: Net(RowsOf(b.ledger, j), a) + Net(RowsOf(b.ledger, b.posts[i].journal), a) == 0
  {
    StartIsSane();
    RunKeepsSane(START, events);
    var i := VoidedNets(Run(START, events).books, j);
  }

  lemma {:induction false} VoidedNets(b: Books, j: nat) returns (i: nat)
    requires BooksSound(b) && j < |b.journals| && b.journals[j].status.Voided?
    ensures i < |b.posts| && b.posts[i].key == Some(VoidKey(j))
    ensures forall a :: Net(RowsOf(b.ledger, j), a) + Net(RowsOf(b.ledger, b.posts[i].journal), a) == 0
  {
    assert HasVoid(b, j);
    i :| 0 <= i < |b.posts| && b.posts[i].key == Some(VoidKey(j));
    assert VoidPost(b, i, j);
    assert RowsOf(b.ledger, j) == b.journals[j].lines;
    assert RowsOf(b.ledger, b.posts[i].journal) == Swapped(b.journals[j].lines);
    SwapNegates(b.journals[j].lines);
  }

  lemma {:induction false} FindStable(a: seq<Post>, b: seq<Post>, r: Request)
    requires a <= b && FindPost(a, r).Some?
    ensures FindPost(b, r) == FindPost(a, r)
  {
    assert forall i | 0 <= i < |a| :: b[i] == a[i];
    assert Matches(b[FindPost(a, r).value], r);
  }

  lemma {:induction false} RunExtends(w: World, events: seq<Event>)
    requires Sane(w) && AllProducers(events)
    ensures w.books.posts <= Run(w, events).books.posts
    decreases |events|
  {
    if events == [] {
    } else {
      PerformKeepsSane(w, events[0]);
      PerformKeepsPosts(w, events[0]);
      RunExtends(Perform(w, events[0]), events[1..]);
    }
  }

  lemma {:induction false} PerformKeepsPosts(w: World, e: Event)
    ensures w.books.posts <= Perform(w, e).books.posts
  {
  }

  /** A request that succeeded and is repeated later, whatever came between, changes nothing. */
  lemma {:induction false} RepeatHasNoEffect(w: World, env: Env, r: Request, between: seq<Event>, again: Env)
    requires Sane(w) && FromProducer(PostIt(env, r)) && AllProducers(between)
    requires PostRequest(w.books, env, r).1.Ok?
    ensures var first := PostRequest(w.books, env, r).1.value;
      var later := Run(Perform(w, PostIt(env, r)), between).books;
      PostRequest(later, again, r) == (later, Ok(Receipt(first.post, true)))
  {
    var w1 := Perform(w, PostIt(env, r));
    var first := PostRequest(w.books, env, r).1.value;
    PerformKeepsSane(w, PostIt(env, r));
    FirstIsFound(w.books, env, r);
    RunExtends(w1, between);
    FindStable(w1.books.posts, Run(w1, between).books.posts, r);
  }

  lemma {:induction false} FirstIsFound(b: Books, env: Env, r: Request)
    requires PostRequest(b, env, r).1.Ok?
    ensures FindPost(PostRequest(b, env, r).0.posts, r) == Some(PostRequest(b, env, r).1.value.post)
  {
    var (b', result) := PostRequest(b, env, r);
    if FindPost(b.posts, r).None? {
      assert forall i | 0 <= i < |b.posts| :: !Conflicts(b.posts[i], r);
      assert b'.posts[..|b.posts|] == b.posts;
    }
  }
}
