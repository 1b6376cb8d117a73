/** The Canvas connector: it lists the user's active courses, fetches each
    course's assignments, keeps only actionable outstanding work, and turns
    HTTP outcomes into the connector's small error vocabulary. Every HTTP
    exchange is an input value (a Reply); nothing here performs I/O. */
module CanvasApi {
  import opened Common

  /** An exception thrown while talking to Canvas. */
  datatype Thrown =
    | FetchTypeError   // a TypeError whose message mentions "fetch": the transport failed
    | OtherError       // any other exception object

  /** The outcome of one `fetch` call: a response with its status and its body
      parsed as JSON (None when `response.json()` throws on a malformed body),
      or an exception thrown by `fetch` itself. */
  datatype Reply<T> = Reply(status: int, body: Option<T>) | Threw(thrown: Thrown)

  /** `response.ok`. */
  predicate IsOk(status: int) {
    200 <= status <= 299
  }

  /** The three error codes the connector's callers recognise. */
  datatype ErrorCode = InvalidCredentials | RateLimit | NetworkError

  /** What the connector can raise. */
  datatype Raised =
    | Code(code: ErrorCode)     // new Error('INVALID_CREDENTIALS' | 'RATE_LIMIT' | 'NETWORK_ERROR')
    | ApiError(status: int)     // new Error(`Canvas API error: ${status}`)
    | Transport                 // the TypeError of a failed transport
    | Foreign                   // any other exception, propagated unchanged

  function RaiseOf(t: Thrown): (e: Raised)
    ensures e == Transport <==> t == FetchTypeError
  {
    match t
    case FetchTypeError => Transport
    case OtherError => Foreign
  }

  /** The statuses that end a fetch: 401, 429 and every status from 500 up. */
  function TerminalCode(status: int): (r: Option<ErrorCode>)
    ensures r == Some(InvalidCredentials) <==> status == 401
    ensures r == Some(RateLimit) <==> status == 429
    ensures r == Some(NetworkError) <==> status >= 500
    ensures r.None? <==> status != 401 && status != 429 && status < 500
  {
    if status == 401 then Some(InvalidCredentials)
    else if status == 429 then Some(RateLimit)
    else if status >= 500 then Some(NetworkError)
    else None
  }

  // ---------------------------------------------------------------- courses

  datatype Course = Course(id: int, name: string)

  /** `fetchCanvasCourses` given the reply to the course-list request. */
  function FetchCanvasCourses(reply: Reply<seq<Course>>): (r: Result<seq<Course>, Raised>)
    ensures r.Ok? <==> reply.Reply? && IsOk(reply.status) && reply.body.Some?
    ensures r.Ok? ==> r.value == reply.body.value
    ensures reply.Reply? && !IsOk(reply.status) ==>
      r == Err(match TerminalCode(reply.status)
               case Some(code) => Code(code)
               case None => ApiError(reply.status))
    ensures reply == Threw(FetchTypeError) ==> r == Err(Transport)
  {
    match reply
    case Threw(t) => Err(RaiseOf(t))
    case Reply(status, body) =>
      if !IsOk(status) then
        match TerminalCode(status)
        case Some(code) => Err(Code(code))
        case None => Err(ApiError(status))
      else
        match body
        case None => Err(Foreign)
        case Some(courses) => Ok(courses)
  }

  // ------------------------------------------------------------ assignments

  /** An ISO 8601 time string together with the instant `new Date(text)` denotes. */
  datatype IsoTime = IsoTime(text: string, millis: Time)

  datatype Submission = Submission(workflowState: string)

  /** An assignment as Canvas sends it (with `include[]=submission`). */
  datatype AssignmentJson = AssignmentJson(
    id: int,
    name: string,
    description: Option<string>,
    dueAt: Option<IsoTime>,
    updatedAt: IsoTime,
    pointsPossible: Option<real>,
    courseId: int,
    htmlUrl: string,
    submissionTypes: Option<seq<string>>,
    published: bool,
    submission: Option<Submission>)

  /** An assignment as the connector returns it. */
  datatype CanvasAssignment = CanvasAssignment(
    id: int,
    name: string,
    description: Option<string>,
    dueAt: Option<IsoTime>,
    updatedAt: IsoTime,
    pointsPossible: Option<real>,
    courseId: int,
    htmlUrl: string,
    submissionTypes: seq<string>,
    published: bool,
    hasSubmittedSubmissions: bool)

  const OnlineSubmissionTypes: seq<string> :=
    ["online_upload", "online_text_entry", "online_url", "online_quiz", "media_recording"]

  predicate HasOnlineSubmission(types: seq<string>) {
    exists i :: 0 <= i < |types| && types[i] in OnlineSubmissionTypes
  }

  /** JavaScript truthiness of `due_at`: present and not the empty string. */
  predicate HasDueDate(dueAt: Option<IsoTime>) {
    dueAt.Some? && dueAt.value.text != ""
  }

  /** No submission yet, or one still in the 'unsubmitted' state. */
  predicate IsOutstanding(submission: Option<Submission>) {
    submission.None? || submission.value.workflowState == "unsubmitted"
  }

  /** The "actionable, outstanding work" rule. */
  predicate IsRelevant(a: AssignmentJson) {
    && a.published
    && HasOnlineSubmission(a.submissionTypes.GetOr([]))
    && HasDueDate(a.dueAt)
    && IsOutstanding(a.submission)
  }

  /** The relevance rule reads only the four fields it names. */
  lemma RelevanceReadsFourFields(a: AssignmentJson, b: AssignmentJson)
    requires a.published == b.published && a.submissionTypes == b.submissionTypes
    requires a.dueAt == b.dueAt && a.submission == b.submission
    ensures IsRelevant(a) == IsRelevant(b)
  {
  }

  /** The record the connector builds from a kept assignment. */
  function Shape(a: AssignmentJson): CanvasAssignment {
    CanvasAssignment(
      a.id, a.name, Some(a.htmlUrl), a.dueAt, a.updatedAt, a.pointsPossible, a.courseId,
      a.htmlUrl, a.submissionTypes.GetOr([]), a.published,
      a.submission.Some? &&
        (a.submission.value.workflowState == "submitted" ||
         a.submission.value.workflowState == "graded"))
  }

  /** The filter-then-map applied to one course's assignments. */
  function Relevant(items: seq<AssignmentJson>): (r: seq<CanvasAssignment>)
    ensures |r| <= |items|
    ensures forall a :: a in items && IsRelevant(a) ==> Shape(a) in r
    ensures forall x :: x in r ==> exists a :: a in items && IsRelevant(a) && x == Shape(a)
    ensures forall x :: x in r ==>
      x.description == Some(x.htmlUrl) && x.published && !x.hasSubmittedSubmissions &&
      HasDueDate(x.dueAt) && HasOnlineSubmission(x.submissionTypes)
  {
    if items == [] then []
    else (if IsRelevant(items[0]) then [Shape(items[0])] else []) + Relevant(items[1..])
  }

  /** The filter keeps the order of the course's assignments. */
  lemma {:induction false} RelevantAppend(a: seq<AssignmentJson>, b: seq<AssignmentJson>)
    ensures Relevant(a + b) == Relevant(a) + Relevant(b)
    decreases |a|
  {
    if a == [] {
      assert a + b == b;
    } else {
      assert (a + b)[0] == a[0];
      assert (a + b)[1..] == a[1..] + b;
      RelevantAppend(a[1..], b);
    }
  }

  // ------------------------------------------------------- the course loop

  /** How the server answers each course's assignment request, by course id. */
  type AssignmentReplies = int -> Reply<seq<AssignmentJson>>

  /** A terminal status or an exception aborts the loop; any other non-OK
      status skips the course; an OK reply contributes its relevant items. */
  function Harvest(courses: seq<Course>, replies: AssignmentReplies): Result<seq<CanvasAssignment>, Raised>
    decreases |courses|
  {
    if courses == [] then Ok([])
    else
      match replies(courses[0].id)
      case Threw(t) => Err(RaiseOf(t))
      case Reply(status, body) =>
        if !IsOk(status) then
          match TerminalCode(status)
          case Some(code) => Err(Code(code))
          case None => Harvest(courses[1..], replies)
        else
          match body
          case None => Err(Foreign)
          case Some(items) => Prepend(Relevant(items), Harvest(courses[1..], replies))
  }

  function Prepend(xs: seq<CanvasAssignment>, r: Result<seq<CanvasAssignment>, Raised>): Result<seq<CanvasAssignment>, Raised> {
    match r
    case Ok(ys) => Ok(xs + ys)
    case Err(e) => Err(e)
  }

  /** Sequencing two stretches of courses: the first failure wins, and the
      successful results are concatenated in course order. */
  function Then(r1: Result<seq<CanvasAssignment>, Raised>, r2: Result<seq<CanvasAssignment>, Raised>): Result<seq<CanvasAssignment>, Raised> {
    match r1
    case Err(e) => Err(e)
    case Ok(xs) => Prepend(xs, r2)
  }

  lemma {:induction false} HarvestAppend(a: seq<Course>, b: seq<Course>, replies: AssignmentReplies)
    ensures Harvest(a + b, replies) == Then(Harvest(a, replies), Harvest(b, replies))
    decreases |a|
  {
    if a == [] {
      assert a + b == b;
      match Harvest(b, replies)
      case Ok(ys) => assert [] + ys == ys;
      case Err(_) =>
    } else {
      assert (a + b)[0] == a[0];
      assert (a + b)[1..] == a[1..] + b;
      HarvestAppend(a[1..], b, replies);
      match Harvest(a[1..], replies)
      case Err(_) =>
      case Ok(xs) =>
        match Harvest(b, replies)
        case Err(_) =>
        case Ok(ys) =>
          forall zs: seq<CanvasAssignment> ensures zs + (xs + ys) == (zs + xs) + ys {}
    }
  }

  /** Does the loop go past this course (its reply is OK and parses, or it is
      a skippable non-OK status)? */
  predicate Proceeds(reply: Reply<seq<AssignmentJson>>) {
    reply.Reply? &&
    (if IsOk(reply.status) then reply.body.Some? else TerminalCode(reply.status).None?)
  }

  /** A course with a non-OK, non-terminal status contributes nothing: the
      result is that of the other courses alone. */
  lemma SkippedCourseContributesNothing(
    before: seq<Course>, c: Course, after: seq<Course>, replies: AssignmentReplies)
    requires replies(c.id).Reply? && !IsOk(replies(c.id).status)
    requires TerminalCode(replies(c.id).status).None?
    ensures Harvest(before + [c] + after, replies) == Harvest(before + after, replies)
  {
    HarvestAppend(before + [c], after, replies);
    HarvestAppend(before, [c], replies);
    HarvestAppend(before, after, replies);
    assert [c][1..] == [];
    match Harvest(before, replies)
    case Err(_) =>
    case Ok(xs) => assert xs + [] == xs;
  }

  /** A terminal status on a course aborts the whole loop with its error,
      provided every earlier course let the loop go on; no partial list is
      returned. */
  lemma {:induction false} TerminalStatusAborts(courses: seq<Course>, i: nat, replies: AssignmentReplies)
    requires i < |courses|
    requires forall j :: 0 <= j < i ==> Proceeds(replies(courses[j].id))
    requires replies(courses[i].id).Reply? && !IsOk(replies(courses[i].id).status)
    requires TerminalCode(replies(courses[i].id).status).Some?
    ensures Harvest(courses, replies) == Err(Code(TerminalCode(replies(courses[i].id).status).value))
    decreases i
  {
    if i > 0 {
      assert Proceeds(replies(courses[0].id));
      TerminalStatusAborts(courses[1..], i - 1, replies);
      assert courses[1..][i - 1] == courses[i];
    }
  }

  /** The loop succeeds exactly when every course lets it go on. */
  lemma {:induction false} HarvestSucceedsIff(courses: seq<Course>, replies: AssignmentReplies)
    ensures Harvest(courses, replies).Ok? <==>
      forall j :: 0 <= j < |courses| ==> Proceeds(replies(courses[j].id))
    decreases |courses|
  {
    if courses != [] {
      HarvestSucceedsIff(courses[1..], replies);
      if forall j :: 0 <= j < |courses| ==> Proceeds(replies(courses[j].id)) {
        forall j | 0 <= j < |courses[1..]| ensures Proceeds(replies(courses[1..][j].id)) {
          assert courses[1..][j] == courses[j + 1];
        }
      } else {
        var j :| 0 <= j < |courses| && !Proceeds(replies(courses[j].id));
        if j > 0 {
          assert courses[1..][j - 1] == courses[j];
        }
      }
    }
  }

  /** How many assignments the OK replies carried in all. */
  function TotalFetched(courses: seq<Course>, replies: AssignmentReplies): nat
    decreases |courses|
  {
    if courses == [] then 0
    else
      var reply := replies(courses[0].id);
      (if reply.Reply? && IsOk(reply.status) && reply.body.Some? then |reply.body.value| else 0)
      + TotalFetched(courses[1..], replies)
  }

  /** A successful result never holds more records than were fetched, and each
      of them passed the relevance rule of some fetched assignment. */
  lemma {:induction false} HarvestBounds(courses: seq<Course>, replies: AssignmentReplies)
    requires Harvest(courses, replies).Ok?
    ensures |Harvest(courses, replies).value| <= TotalFetched(courses, replies)
    ensures forall x :: x in Harvest(courses, replies).value ==>
      exists j, a :: 0 <= j < |courses| && replies(courses[j].id).Reply? &&
        replies(courses[j].id).body.Some? && a in replies(courses[j].id).body.value &&
        IsRelevant(a) && x == Shape(a)
    decreases |courses|
  {
    if courses != [] {
      var reply := replies(courses[0].id);
      HarvestBounds(courses[1..], replies);
      var rest := Harvest(courses[1..], replies).value;
      forall x | x in Harvest(courses, replies).value
        ensures exists j, a :: (0 <= j < |courses| && replies(courses[j].id).Reply? &&
          replies(courses[j].id).body.Some? && a in replies(courses[j].id).body.value &&
          IsRelevant(a) && x == Shape(a))
      {
        if x in rest {
          var j, a :| 0 <= j < |courses[1..]| && replies(courses[1..][j].id).Reply? &&
            replies(courses[1..][j].id).body.Some? && a in replies(courses[1..][j].id).body.value &&
            IsRelevant(a) && x == Shape(a);
          assert courses[1..][j] == courses[j + 1];
        } else {
          var a :| a in reply.body.value && IsRelevant(a) && x == Shape(a);
          assert courses[0] == courses[0];
        }
      }
    }
  }

  /** The connector's outer catch: the three codes pass through unchanged, a
      transport TypeError becomes NETWORK_ERROR, anything else propagates. */
  function OuterCatch(e: Raised): (r: Raised)
    ensures r != Transport
    ensures e.Code? ==> r == e
    ensures e == Transport ==> r == Code(NetworkError)
    ensures e != Transport ==> r == e
  {
    if e == Transport then Code(NetworkError) else e
  }

  /** What the server says, request by request. */
  datatype CanvasServer = CanvasServer(courses: Reply<seq<Course>>, assignmentsOf: AssignmentReplies)

  /** What `fetchCanvasAssignments` returns or throws for a given server. */
  function FetchOutcome(server: CanvasServer): Result<seq<CanvasAssignment>, Raised> {
    var inner :=
      match FetchCanvasCourses(server.courses)
      case Err(e) => Err(e)
      case Ok(courses) => Harvest(courses, server.assignmentsOf);
    match inner
    case Ok(xs) => Ok(xs)
    case Err(e) => Err(OuterCatch(e))
  }

  /** The connector never lets a transport TypeError out, and a successful
      fetch holds only relevant, not-yet-submitted work. */
  lemma FetchOutcomeShape(server: CanvasServer)
    ensures FetchOutcome(server).Err? ==> FetchOutcome(server).error != Transport
    ensures FetchOutcome(server).Ok? ==>
      forall x :: x in FetchOutcome(server).value ==> !x.hasSubmittedSubmissions && x.description == Some(x.htmlUrl)
  {
    match FetchCanvasCourses(server.courses)
    case Err(e) =>
    case Ok(courses) =>
      match Harvest(courses, server.assignmentsOf)
      case Err(_) =>
      case Ok(xs) =>
        forall x | x in xs ensures !x.hasSubmittedSubmissions && x.description == Some(x.htmlUrl) {
          HarvestBounds(courses, server.assignmentsOf);
        }
  }

  /** `fetchCanvasAssignments`: the course loop, appending each course's
      relevant assignments and aborting on a terminal outcome. */
  method FetchCanvasAssignments(server: CanvasServer) returns (r: Result<seq<CanvasAssignment>, Raised>)
    ensures r == FetchOutcome(server)
  {
    var listed := FetchCanvasCourses(server.courses);
    if listed.Err? {
      return Err(OuterCatch(listed.error));
    }
    var courses := listed.value;
    var all: seq<CanvasAssignment> := [];
    assert courses[0..] == courses;
    match Harvest(courses, server.assignmentsOf) {
      case Ok(ys) => assert [] + ys == ys;
      case Err(_) =>
    }
    for i := 0 to |courses|
      invariant Harvest(courses, server.assignmentsOf) == Prepend(all, Harvest(courses[i..], server.assignmentsOf))
    {
      assert courses[i..][0] == courses[i] && courses[i..][1..] == courses[i + 1..];
      var reply := server.assignmentsOf(courses[i].id);
      if reply.Threw? {
        return Err(OuterCatch(RaiseOf(reply.thrown)));
      }
      if !IsOk(reply.status) {
        var code := TerminalCode(reply.status);
        if code.Some? {
          return Err(OuterCatch(Code(code.value)));
        }
        continue;
      }
      if reply.body.None? {
        return Err(OuterCatch(Foreign));
      }
      forall ys: seq<CanvasAssignment> ensures all + (Relevant(reply.body.value) + ys) == (all + Relevant(reply.body.value)) + ys {}
      all := all + Relevant(reply.body.value);
    }
    assert courses[|courses|..] == [];
    assert all + [] == all;
    return Ok(all);
  }

  // ---------------------------------------------------- credential check

  datatype CredentialCheck = Accepted | Rejected | Unreachable

  /** `validateCanvasCredentials` given the reply to `/api/v1/users/self`:
      false on 401, NETWORK_ERROR (Unreachable) on a 5xx or a transport
      TypeError, `response.ok` when the body parses, false on any other
      exception (a malformed body included). */
  function ValidateCanvasCredentials(reply: Reply<()>): (r: CredentialCheck)
    ensures reply.Reply? && reply.status == 401 ==> r == Rejected
    ensures r == Unreachable <==> reply == Threw(FetchTypeError) || (reply.Reply? && reply.status >= 500)
    ensures r == Accepted <==> reply.Reply? && IsOk(reply.status) && reply.body.Some?
  {
    match reply
    case Threw(t) => if t == FetchTypeError then Unreachable else Rejected
    case Reply(status, body) =>
      if status == 401 then Rejected
      else if !IsOk(status) && status >= 500 then Unreachable
      else if body.None? then Rejected
      else if IsOk(status) then Accepted
      else Rejected
  }
}
