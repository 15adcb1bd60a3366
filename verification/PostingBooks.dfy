/**
 * Posting and the manual-journal workflow over one set of books: the dedup lookup, the
 * validation, the unique keys that decide races, approval and posting of journals, and the
 * void, which posts a reversal and only then stamps the journal.
 */
module PostingBooks {
  import opened Wrappers
  import opened GlPosting

  datatype PostingKind = Original | Reversal | Adjustment

  /** Idempotency keys: a producer's own, the one a posted journal takes, the one its void takes. */
  datatype Key = ProducerKey(text: string) | JournalKey(journal: nat) | VoidKey(journal: nat)

  datatype Source = Source(kind: string, id: nat)

  datatype Post = Post(journal: nat, source: Source, kind: PostingKind, key: Option<Key>, reverses: Option<nat>)

  datatype Status = Draft | Pending | Approved | Posted | Rejected | Voided

  datatype Journal = Journal(status: Status, lines: seq<PostingLine>, source: Source, createdBy: Option<nat>,
                             submittedBy: Option<nat>)

  datatype Row = Row(journal: nat, line: PostingLine)

  /** Posts, journals and ledger rows are only ever added; a failed attempt leaves an audit record. */
  datatype Books = Books(posts: seq<Post>, journals: seq<Journal>, ledger: seq<Row>, failures: seq<PostingError>)

  datatype Request = Request(source: Source, kind: PostingKind, key: Option<Key>, reverses: Option<nat>,
                             lines: seq<PostingLine>)

  /** What validation reads: the accounts, whether the period is closed, what budget control says. */
  datatype Env = Env(accounts: map<nat, PostableAccount>, periodClosed: bool, overBudget: bool)

  datatype Receipt = Receipt(post: nat, reused: bool)

  const EMPTY := Books([], [], [], [])

  // ------------------------------------------------------------------ posting

  /** The dedup lookup: by key when there is one, else by source and kind. */
  predicate Matches(p: Post, r: Request) {
    if r.key.Some? then p.key == r.key else p.source == r.source && p.kind == r.kind
  }

  function FindPost(posts: seq<Post>, r: Request): (found: Option<nat>)
    ensures found.Some? ==> found.value < |posts| && Matches(posts[found.value], r)
    ensures found.Some? ==> forall i | 0 <= i < found.value :: !Matches(posts[i], r)
    ensures found.None? ==> forall i | 0 <= i < |posts| :: !Matches(posts[i], r)
  {
    if posts == [] then None
    else
      var earlier := FindPost(posts[..|posts| - 1], r);
      if earlier.Some? then earlier
      else if Matches(posts[|posts| - 1], r) then Some(|posts| - 1)
      else None
  }

  /** The unique indexes: one post per key, and one keyless post per source and kind. */
  predicate Conflicts(p: Post, r: Request) {
    if r.key.Some? then p.key == r.key else p.key.None? && p.source == r.source && p.kind == r.kind
  }

  predicate Taken(posts: seq<Post>, r: Request) {
    exists i | 0 <= i < |posts| :: Conflicts(posts[i], r)
  }

  function RowsFor(journal: nat, lines: seq<PostingLine>): (rows: seq<Row>)
    ensures |rows| == |lines| && forall i | 0 <= i < |lines| :: rows[i] == Row(journal, lines[i])
  {
    if lines == [] then [] else RowsFor(journal, lines[..|lines| - 1]) + [Row(journal, lines[|lines| - 1])]
  }

  /** Journal, rows and post in one step; a lost race gives back the winner. */
  function Commit(b: Books, r: Request): (Books, Option<Receipt>) {
    if Taken(b.posts, r) then
      var winner := FindPost(b.posts, r);
      (b, if winner.Some? then Some(Receipt(winner.value, true)) else None)
    else
      var j := |b.journals|;
      (b.(posts := b.posts + [Post(j, r.source, r.kind, r.key, r.reverses)],
          journals := b.journals + [Journal(Posted, r.lines, r.source, None, None)],
          ledger := b.ledger + RowsFor(j, r.lines)),
       Some(Receipt(|b.posts|, false)))
  }

  /** The swapped lines of the post a reversal names. */
  function ReversalLines(b: Books, r: Request): Option<seq<PostingLine>> {
    if r.reverses.None? || r.reverses.value >= |b.posts| then None
    else
      var j := b.posts[r.reverses.value].journal;
      if j < |b.journals| then Some(Swapped(b.journals[j].lines)) else None
  }

  function Judge(env: Env, lines: seq<PostingLine>): Option<PostingError> {
    var refusal := Validate(lines, env.accounts, env.periodClosed);
    if refusal.Some? then refusal else if env.overBudget then Some(BudgetExceeded) else None
  }

  function PostRequest(b: Books, env: Env, r: Request): (Books, Result<Receipt, PostingError>) {
    var existing := FindPost(b.posts, r);
    if existing.Some? then (b, Ok(Receipt(existing.value, true)))
    else
      var lines := if r.kind.Reversal? then ReversalLines(b, r) else Some(r.lines);
      if lines.None? then (b, Err(Conflict))
      else
        var refusal := Judge(env, lines.value);
        if refusal.Some? then (b.(failures := b.failures + [refusal.value]), Err(refusal.value))
        else
          var (b', receipt) := Commit(b, r.(lines := lines.value));
          (b', if receipt.Some? then Ok(receipt.value) else Err(Conflict))
  }

  // ------------------------------------------------------------------ the journal workflow

  datatype WorkflowError =
    | NotFound
    | SelfApproval
    | InvalidState(current: Status)
    | NotPosted
    | PostingFailed(error: PostingError)

  function SetStatus(b: Books, j: nat, s: Status): Books
    requires j < |b.journals|
  {
    b.(journals := b.journals[j := b.journals[j].(status := s)])
  }

  function PostOfJournal(posts: seq<Post>, j: nat, originalOnly: bool): (found: Option<nat>)
    ensures found.Some? ==> found.value < |posts| && posts[found.value].journal == j
    ensures found.Some? && originalOnly ==> posts[found.value].kind.Original?
  {
    if posts == [] then None
    else
      var earlier := PostOfJournal(posts[..|posts| - 1], j, originalOnly);
      var p := posts[|posts| - 1];
      if earlier.Some? then earlier
      else if p.journal == j && (originalOnly ==> p.kind.Original?) then Some(|posts| - 1)
      else None
  }

  function JournalRequest(b: Books, j: nat): Request
    requires j < |b.journals|
  {
    Request(b.journals[j].source, Original, Some(JournalKey(j)), None, b.journals[j].lines)
  }

  /** The atomic write behind posting a journal; its key refuses a second one. */
  function CommitJournal(b: Books, j: nat): Option<Books>
    requires j < |b.journals|
  {
    if Taken(b.posts, JournalRequest(b, j)) then None
    else Some(b.(
      posts := b.posts + [Post(j, b.journals[j].source, Original, Some(JournalKey(j)), None)],
      journals := b.journals[j := b.journals[j].(status := Posted)],
      ledger := b.ledger + RowsFor(j, b.journals[j].lines)))
  }

  function PostJournal(b: Books, env: Env, j: nat): (Books, Result<Receipt, PostingError>) {
    if j >= |b.journals| then (b, Err(Conflict))
    else if b.journals[j].status.Posted? then
      var existing := PostOfJournal(b.posts, j, false);
      (b, Ok(Receipt(if existing.Some? then existing.value else 0, true)))
    else if !b.journals[j].status.Approved? then (b, Err(Conflict))
    else
      var refusal := Judge(env, b.journals[j].lines);
      if refusal.Some? then (b.(failures := b.failures + [refusal.value]), Err(refusal.value))
      else
        var done := CommitJournal(b, j);
        if done.None? then (b, Err(Conflict)) else (done.value, Ok(Receipt(|b.posts|, false)))
  }

  function Submit(b: Books, j: nat, actor: Option<nat>): (Books, Option<WorkflowError>) {
    if j >= |b.journals| then (b, Some(NotFound))
    else if !b.journals[j].status.Draft? then (b, Some(InvalidState(b.journals[j].status)))
    else (b.(journals := b.journals[j := b.journals[j].(status := Pending, submittedBy := actor)]), None)
  }

  /** Whoever submitted or created a journal does not approve it, unless that is allowed. */
  predicate OwnJournal(b: Books, j: nat, actor: Option<nat>) {
    j < |b.journals| && actor.Some? && (b.journals[j].submittedBy == actor || b.journals[j].createdBy == actor)
  }

  function Approve(b: Books, env: Env, j: nat, actor: Option<nat>, selfAllowed: bool)
    : (Books, Result<Receipt, WorkflowError>)
  {
    if OwnJournal(b, j, actor) && !selfAllowed then (b, Err(SelfApproval))
    else if j >= |b.journals| then (b, Err(NotFound))
    else if !b.journals[j].status.Pending? then (b, Err(InvalidState(b.journals[j].status)))
    else
      var (b', r) := PostJournal(SetStatus(b, j, Approved), env, j);
      (b', if r.Ok? then Ok(r.value) else Err(PostingFailed(r.error)))
  }

  function Reject(b: Books, j: nat): (Books, Option<WorkflowError>) {
    if j >= |b.journals| then (b, Some(NotFound))
    else if !b.journals[j].status.Draft? && !b.journals[j].status.Pending? then
      (b, Some(InvalidState(b.journals[j].status)))
    else (SetStatus(b, j, Rejected), None)
  }

  function VoidRequest(j: nat, original: nat): Request {
    Request(Source("manual", j), Reversal, Some(VoidKey(j)), Some(original), [])
  }

  /** What the void checks before it posts: the journal is posted, through an original post. */
  function VoidCheck(b: Books, j: nat): Result<nat, WorkflowError> {
    if j >= |b.journals| then Err(NotFound)
    else if !b.journals[j].status.Posted? then Err(InvalidState(b.journals[j].status))
    else
      var original := PostOfJournal(b.posts, j, true);
      if original.None? then Err(NotPosted) else Ok(original.value)
  }

  /** The void verb run to its end: the reversal post, then the voided stamp. */
  function Void(b: Books, env: Env, j: nat): (Books, Result<Receipt, WorkflowError>) {
    var original := VoidCheck(b, j);
    if original.Err? then (b, Err(original.error))
    else
      var (b', r) := PostRequest(b, env, VoidRequest(j, original.value));
      if r.Err? then (b', Err(PostingFailed(r.error)))
      else (if j < |b'.journals| then SetStatus(b', j, Voided) else b', Ok(r.value))
  }

  // ------------------------------------------------------------------ the services over one set of tables

  /** One journal took a new status and kept its lines; every other journal is as it was. */
  predicate Moved(before: seq<Journal>, after: seq<Journal>, j: nat, s: Status) {
    && |after| == |before| && j < |before|
    && after[j].status == s && after[j].lines == before[j].lines
    && forall k | 0 <= k < |before| && k != j :: after[k] == before[k]
  }

  /** One posted journal, its rows and one post more, for a request; a reversal's lines are the swapped ones. */
  predicate Booked(before: Books, after: Books, r: Request) {
    && |after.posts| == |before.posts| + 1 && before.posts <= after.posts
    && |after.journals| == |before.journals| + 1 && before.journals <= after.journals
    && var p, j := after.posts[|before.posts|], after.journals[|before.journals|];
    && p == Post(|before.journals|, r.source, r.kind, r.key, r.reverses) && j.status.Posted?
    && Some(j.lines) == (if r.kind.Reversal? then ReversalLines(before, r) else Some(r.lines))
    && after.ledger == before.ledger + RowsFor(|before.journals|, j.lines)
  }

  class PostingTables {
    var posts: seq<Post>
    var journals: seq<Journal>
    var ledger: seq<Row>
    var failures: seq<PostingError>

    constructor ()
      ensures Contents() == EMPTY
    {
      posts, journals, ledger, failures := [], [], [], [];
    }

    function Contents(): Books
      reads this
    {
      Books(posts, journals, ledger, failures)
    }

    /** The first post the dedup lookup finds. */
    method FindExistingPost(r: Request) returns (found: Option<nat>)
      ensures found == FindPost(posts, r)
    {
      var i := 0;
      while i < |posts|
        invariant 0 <= i <= |posts|
        invariant forall k | 0 <= k < i :: !Matches(posts[k], r)
      {
        if Matches(posts[i], r) {
          return Some(i);
        }
        i := i + 1;
      }
      found := None;
    }

    method CommitPosting(r: Request) returns (receipt: Option<Receipt>)
      modifies this
      ensures (Contents(), receipt) == Commit(old(Contents()), r)
    {
      if Taken(posts, r) {
        var winner := FindExistingPost(r);
        if winner.None? {
          return None;
        }
        return Some(Receipt(winner.value, true));
      }
      var j := |journals|;
      journals := journals + [Journal(Posted, r.lines, r.source, None, None)];
      ledger := ledger + RowsFor(j, r.lines);
      posts := posts + [Post(j, r.source, r.kind, r.key, r.reverses)];
      receipt := Some(Receipt(|posts| - 1, false));
    }

    /** A repeated request gives back its post; a reversal's lines replace the request's own. */
    method PostOne(env: Env, request: Request) returns (result: Result<Receipt, PostingError>)
      modifies this
      ensures (Contents(), result) == PostRequest(old(Contents()), env, request)
      ensures result.Ok? && result.value.reused ==>
        Contents() == old(Contents()) && result.value.post < |posts| && Matches(posts[result.value.post], request)
      ensures result.Ok? && !result.value.reused ==> Booked(old(Contents()), Contents(), request)
      ensures result.Err? ==> posts == old(posts) && journals == old(journals) && ledger == old(ledger)
    {
      var existing := FindExistingPost(request);
      if existing.Some? {
        return Ok(Receipt(existing.value, true));
      }
      var r := request;
      if r.kind.Reversal? {
        var lines := ReversalLines(Contents(), r);
        if lines.None? {
          return Err(Conflict);
        }
        r := r.(lines := lines.value);
      }
      var refusal := Judge(env, r.lines);
      if refusal.Some? {
        failures := failures + [refusal.value];
        return Err(refusal.value);
      }
      var receipt := CommitPosting(r);
      result := if receipt.Some? then Ok(receipt.value) else Err(Conflict);
    }

    method PostJournalNow(env: Env, j: nat) returns (result: Result<Receipt, PostingError>)
      modifies this
      ensures (Contents(), result) == PostJournal(old(Contents()), env, j)
      ensures result.Ok? && result.value.reused ==> Contents() == old(Contents()) && journals[j].status.Posted?
      ensures result.Ok? && !result.value.reused ==> j < |old(journals)| && old(journals)[j].status.Approved?
      ensures result.Ok? && !result.value.reused ==> Moved(old(journals), journals, j, Posted)
      ensures result.Ok? && !result.value.reused ==> |posts| == |old(posts)| + 1 && old(posts) <= posts
      ensures result.Ok? && !result.value.reused ==> ledger == old(ledger) + RowsFor(j, old(journals)[j].lines)
      ensures result.Err? ==> posts == old(posts) && journals == old(journals) && ledger == old(ledger)
    {
      if j >= |journals| {
        return Err(Conflict);
      }
      if journals[j].status.Posted? {
        var existing := PostOfJournal(posts, j, false);
        return Ok(Receipt(if existing.Some? then existing.value else 0, true));
      }
      if !journals[j].status.Approved? {
        return Err(Conflict);
      }
      var refusal := Judge(env, journals[j].lines);
      if refusal.Some? {
        failures := failures + [refusal.value];
        return Err(refusal.value);
      }
      if Taken(posts, JournalRequest(Contents(), j)) {
        return Err(Conflict);
      }
      ledger := ledger + RowsFor(j, journals[j].lines);
      posts := posts + [Post(j, journals[j].source, Original, Some(JournalKey(j)), None)];
      journals := journals[j := journals[j].(status := Posted)];
      result := Ok(Receipt(|posts| - 1, false));
    }

    method SubmitAs(j: nat, actor: Option<nat>) returns (error: Option<WorkflowError>)
      modifies this`journals
      ensures (Contents(), error) == Submit(old(Contents()), j, actor)
      ensures error.None? <==> j < |old(journals)| && old(journals)[j].status.Draft?
      ensures error.None? ==> Moved(old(journals), journals, j, Pending) && journals[j].submittedBy == actor
      ensures error.Some? ==> journals == old(journals)
    {
      if j >= |journals| {
        return Some(NotFound);
      }
      if !journals[j].status.Draft? {
        return Some(InvalidState(journals[j].status));
      }
      journals := journals[j := journals[j].(status := Pending, submittedBy := actor)];
      error := None;
    }

    method ApproveAs(env: Env, j: nat, actor: Option<nat>, selfAllowed: bool)
      returns (result: Result<Receipt, WorkflowError>)
      modifies this
      ensures (Contents(), result) == Approve(old(Contents()), env, j, actor, selfAllowed)
      ensures result.Ok? ==> j < |old(journals)| && old(journals)[j].status.Pending?
      ensures result.Ok? ==> Moved(old(journals), journals, j, Posted)
      ensures result.Ok? ==> ledger == old(ledger) + RowsFor(j, old(journals)[j].lines)
      ensures result.Ok? ==> result.value == Receipt(old(|posts|), false)
      ensures result.Err? ==> ledger == old(ledger) && posts == old(posts)
      ensures result.Err? && result.error.PostingFailed? ==> Moved(old(journals), journals, j, Approved)
      ensures result.Err? && !result.error.PostingFailed? ==> Contents() == old(Contents())
    {
      if OwnJournal(Contents(), j, actor) && !selfAllowed {
        return Err(SelfApproval);
      }
      if j >= |journals| {
        return Err(NotFound);
      }
      if !journals[j].status.Pending? {
        return Err(InvalidState(journals[j].status));
      }
      journals := journals[j := journals[j].(status := Approved)];
      var posted := PostJournalNow(env, j);
      result := if posted.Ok? then Ok(posted.value) else Err(PostingFailed(posted.error));
    }

    method RejectOne(j: nat) returns (error: Option<WorkflowError>)
      modifies this`journals
      ensures (Contents(), error) == Reject(old(Contents()), j)
      ensures error.None? <==> j < |old(journals)| && (old(journals)[j].status.Draft? || old(journals)[j].status.Pending?)
      ensures error.None? ==> Moved(old(journals), journals, j, Rejected)
      ensures error.Some? ==> journals == old(journals)
    {
      if j >= |journals| {
        return Some(NotFound);
      }
      if !journals[j].status.Draft? && !journals[j].status.Pending? {
        return Some(InvalidState(journals[j].status));
      }
      journals := journals[j := journals[j].(status := Rejected)];
      error := None;
    }

    /** The reversal is posted first; the journal is stamped only afterwards. */
    method VoidOne(env: Env, j: nat) returns (result: Result<Receipt, WorkflowError>)
      modifies this
      ensures (Contents(), result) == Void(old(Contents()), env, j)
      ensures result.Ok? ==> j < |old(journals)| && old(journals)[j].status.Posted?
      ensures result.Ok? ==> |old(journals)| <= |journals|
      ensures result.Ok? ==> Moved(old(journals), journals[..|old(journals)|], j, Voided)
      ensures result.Ok? ==> old(posts) <= posts && old(ledger) <= ledger
      ensures result.Err? ==> posts == old(posts) && journals == old(journals) && ledger == old(ledger)
    {
      var original := VoidCheck(Contents(), j);
      if original.Err? {
        return Err(original.error);
      }
      var posted := PostOne(env, VoidRequest(j, original.value));
      if posted.Err? {
        return Err(PostingFailed(posted.error));
      }
      if j < |journals| {
        journals := journals[j := journals[j].(status := Voided)];
      }
      result := Ok(posted.value);
    }
  }
}
