/** Agent provisioning and the agent/phone registry: `create_agent`,
    `get_agents`, `get_phones` and `delete_assistant`. Every outbound call
    takes its reply as an oracle; the requests sent are returned in order. */
module PhoneSystem {
  import opened Common
  import opened Json
  import opened Http
  import opened Outbound
  import opened Database
  import opened PhoneAdapters

  /** An uploaded form file; only its name and content type matter here
      (its bytes go to the OCR service, whose answer is the oracle). */
  datatype UploadedFile = UploadedFile(filename: Option<string>, contentType: Option<string>)

  /** What processing one file did: the upload's file id or the error raised,
      and the requests sent for it. */
  datatype FileStep = FileStep(outcome: Result<Json>, sent: seq<Request>)

  /** The rest of a file's step once OCR has answered `ocr`: on an error
      nothing more is sent; on text, the upload. */
  function AfterOcr(ocrRequest: Request, ocr: Result<string>, baseFilename: string, uploadReply: HttpReply): (s: FileStep)
    ensures ocr.Err? ==> s.outcome == Err(ocr.error) && s.sent == [ocrRequest]
    ensures ocr.Ok? ==> s.outcome == UploadTextToVapi(uploadReply) &&
                        s.sent == [ocrRequest, UploadRequest(ocr.value, baseFilename)]
  {
    match ocr
    case Err(e) => FileStep(Err(e), [ocrRequest])
    case Ok(text) => FileStep(UploadTextToVapi(uploadReply), [ocrRequest, UploadRequest(text, baseFilename)])
  }

  /** One iteration of the `for f in files` loop: OCR under the file's name
      and type (defaults "upload" and "application/pdf"), then the upload of
      the text under a name derived from the file's (default "upload.pdf"). */
  function ProcessFile(f: UploadedFile, ocrReply: HttpReply, uploadReply: HttpReply): (s: FileStep)
    ensures RunOcr(ocrReply).Err? ==> s.outcome == Err(RunOcr(ocrReply).error) && |s.sent| == 1
    ensures RunOcr(ocrReply).Ok? ==> s.outcome == UploadTextToVapi(uploadReply) && |s.sent| == 2 &&
                                     s.sent[1] == UploadRequest(RunOcr(ocrReply).value, OrDefault(f.filename, "upload.pdf"))
    ensures s.sent[0] == OcrRequest(OrDefault(f.filename, "upload"), OrDefault(f.contentType, "application/pdf"))
    ensures CountOcrPosts(s.sent) == 1 && CountAssistantPosts(s.sent) == 0
    ensures CountFilePosts(s.sent) == (if RunOcr(ocrReply).Ok? then 1 else 0)
  {
    var ocrRequest := OcrRequest(OrDefault(f.filename, "upload"), OrDefault(f.contentType, "application/pdf"));
    var s := AfterOcr(ocrRequest, RunOcr(ocrReply), OrDefault(f.filename, "upload.pdf"), uploadReply);
    CountsAppend([ocrRequest], s.sent[1..]);
    s
  }

  /** Whether a step has the request pattern of `ProcessFile`: one OCR
      request, an upload only when it got that far, no assistant post. */
  predicate WellShaped(s: FileStep) {
    && CountOcrPosts(s.sent) == 1
    && CountAssistantPosts(s.sent) == 0
    && CountFilePosts(s.sent) <= 1
    && (s.outcome.Ok? ==> CountFilePosts(s.sent) == 1)
  }

  /** What processing each file would do, by position. */
  function Steps(files: seq<UploadedFile>, ocr: nat -> HttpReply, upload: nat -> HttpReply): (r: seq<FileStep>)
    ensures |r| == |files|
    ensures forall i :: 0 <= i < |files| ==> r[i] == ProcessFile(files[i], ocr(i), upload(i)) && WellShaped(r[i])
  {
    seq(|files|, i requires 0 <= i < |files| => ProcessFile(files[i], ocr(i), upload(i)))
  }

  /** The state of the file loop: the ids collected so far, the requests sent
      and the exception that ended the loop, if any. */
  datatype Batch = Batch(fileIds: seq<Json>, sent: seq<Request>, failure: Option<HttpException>)

  /** The file loop run over the first `n` steps: ids are collected until the
      first step that raises, after which nothing more is sent. */
  function Collect(steps: seq<FileStep>, n: nat): Batch
    requires n <= |steps|
  {
    if n == 0 then Batch([], [], None)
    else
      var b := Collect(steps, n - 1);
      if b.failure.Some? then b
      else
        match steps[n - 1].outcome
        case Ok(id) => Batch(b.fileIds + [id], b.sent + steps[n - 1].sent, None)
        case Err(e) => Batch(b.fileIds, b.sent + steps[n - 1].sent, Some(e))
  }

  /** Once a step has failed the loop has stopped: later steps change nothing. */
  lemma {:induction false} CollectStaysFailed(steps: seq<FileStep>, k: nat, n: nat)
    requires k <= n <= |steps|
    requires Collect(steps, k).failure.Some?
    ensures Collect(steps, n) == Collect(steps, k)
    decreases n - k
  {
    if n > k {
      CollectStaysFailed(steps, k, n - 1);
    }
  }

  /** When the first `n` steps all succeed, the loop collects one id per
      file, in input order, after one OCR and one upload request per file. */
  lemma {:induction false} CollectAllSucceed(steps: seq<FileStep>, n: nat)
    requires n <= |steps|
    requires forall i :: 0 <= i < n ==> steps[i].outcome.Ok? && WellShaped(steps[i])
    ensures Collect(steps, n).failure.None?
    ensures |Collect(steps, n).fileIds| == n
    ensures forall i :: 0 <= i < n ==> Collect(steps, n).fileIds[i] == steps[i].outcome.value
    ensures CountOcrPosts(Collect(steps, n).sent) == n
    ensures CountFilePosts(Collect(steps, n).sent) == n
    ensures CountAssistantPosts(Collect(steps, n).sent) == 0
  {
    if n > 0 {
      CollectAllSucceed(steps, n - 1);
      CountsAppend(Collect(steps, n - 1).sent, steps[n - 1].sent);
    }
  }

  /** If step `k` is the first to fail, the loop stops there with its error:
      `k` ids were collected, `k + 1` OCR requests were sent, and the uploads
      of the `k` earlier files plus whatever the failing step sent. */
  lemma {:induction false} CollectFirstFailure(steps: seq<FileStep>, k: nat)
    requires k < |steps|
    requires forall i :: 0 <= i < k ==> steps[i].outcome.Ok? && WellShaped(steps[i])
    requires steps[k].outcome.Err? && WellShaped(steps[k])
    ensures Collect(steps, |steps|).failure == Some(steps[k].outcome.error)
    ensures |Collect(steps, |steps|).fileIds| == k
    ensures CountOcrPosts(Collect(steps, |steps|).sent) == k + 1
    ensures CountFilePosts(Collect(steps, |steps|).sent) == k + CountFilePosts(steps[k].sent)
    ensures CountAssistantPosts(Collect(steps, |steps|).sent) == 0
  {
    CollectAllSucceed(steps, k);
    CountsAppend(Collect(steps, k).sent, steps[k].sent);
    CollectStaysFailed(steps, k + 1, |steps|);
  }

  /** If the loop ends without a failure, every step succeeded. */
  lemma {:induction false} CollectNoFailure(steps: seq<FileStep>, n: nat)
    requires n <= |steps|
    requires Collect(steps, n).failure.None?
    ensures forall i :: 0 <= i < n ==> steps[i].outcome.Ok?
  {
    if n > 0 {
      CollectNoFailure(steps, n - 1);
    }
  }

  /** The `for f in files` loop of `create_agent`: OCR then upload for each
      file in turn, stopping at the first exception. */
  method CollectFileIds(files: seq<UploadedFile>, ocr: nat -> HttpReply, upload: nat -> HttpReply)
    returns (fileIds: seq<Json>, sent: seq<Request>, failure: Option<HttpException>)
    ensures Batch(fileIds, sent, failure) == Collect(Steps(files, ocr, upload), |files|)
    ensures failure.None? ==> |fileIds| == |files|
  {
    ghost var steps := Steps(files, ocr, upload);
    fileIds, sent, failure := [], [], None;
    var i := 0;
    while i < |files|
      invariant 0 <= i <= |files|
      invariant Batch(fileIds, sent, failure) == Collect(steps, i)
      invariant failure.None? && |fileIds| == i
    {
      var step := ProcessFile(files[i], ocr(i), upload(i));
      assert step == steps[i];
      sent := sent + step.sent;
      if step.outcome.Err? {
        failure := Some(step.outcome.error);
        CollectStaysFailed(steps, i + 1, |files|);
        return;
      }
      fileIds := fileIds + [step.outcome.value];
      i := i + 1;
    }
  }

  /** The assistant-creation body: fixed model and voice, the collected file
      ids as the knowledge base and the system prompt as the only message. */
  function BuildPayload(agentName: string, firstMessage: string, systemPrompt: string, fileIds: seq<Json>): (p: AssistantPayload)
    ensures p.name == agentName && p.firstMessage == firstMessage
    ensures p.model.knowledgeBase.fileIds == fileIds
    ensures p.model.messages == [ChatMessage("system", systemPrompt)]
  {
    AssistantPayload(
      agentName, firstMessage,
      ModelConfig("openai", "gpt-4o-mini", KnowledgeBase("google", fileIds), [ChatMessage("system", systemPrompt)]),
      VoiceConfig("11labs", "cgSgspJ2msm6clMCkdW9", "eleven_turbo_v2_5", "0.5", "0.75"))
  }

  /** The id the `try` block stores: the post must not raise for its status,
      its body must be a dict whose `id` is a string. */
  function CreatedAgentId(post: HttpReply): (r: Option<string>)
    ensures r.Some? ==> SucceededWithJson(post) && Member(post.body.value, "id") == Some(JStr(r.value))
  {
    if SucceededWithJson(post) && Member(post.body.value, "id").Some? && Member(post.body.value, "id").value.JStr?
    then Some(Member(post.body.value, "id").value.s)
    else None
  }

  /** The tables after the `try` block: a new `user_agent` row when there is
      an id, the commit does not fail and the id is not already stored
      (`agent_id` is unique); otherwise nothing persists. */
  function AfterAgentInsert(t: Tables, agentId: Option<string>, userId: nat, dbFails: bool): (r: Tables)
    ensures r.users == t.users && r.phones == t.phones
  {
    if agentId.Some? && !dbFails && !HasAgentId(t.agents, agentId.value)
    then t.(agents := t.agents + [AgentRow(NextId(RowIds(t.agents, AgentRowId)), agentId.value, userId)])
    else t
  }

  /** `return response.json()` after the `try` block: the body of whatever
      reply came back. A transport error leaves `response` unbound, and a
      body that is not JSON raises again; neither is caught (500). */
  function ReturnedBody(post: HttpReply): (r: Result<Json>)
    ensures r.Ok? <==> post.Reply? && post.body.Some?
  {
    if post.Reply? && post.body.Some? then Ok(post.body.value) else Err(InternalServerError)
  }

  /** The insert keeps the store's unique constraints. */
  lemma AfterAgentInsertWellFormed(t: Tables, agentId: Option<string>, userId: nat, dbFails: bool)
    requires WellFormed(t)
    ensures WellFormed(AfterAgentInsert(t, agentId, userId, dbFails))
  {
    var r := AfterAgentInsert(t, agentId, userId, dbFails);
    if r != t {
      forall i, j | 0 <= i < j < |r.agents|
        ensures r.agents[i].agentId != r.agents[j].agentId
      {
        if j == |t.agents| {
          assert r.agents[i] == t.agents[i];
        }
      }
    }
  }

  datatype AgentCreation = AgentCreation(tables: Tables, result: Result<Json>, sent: seq<Request>)

  /** `create_agent`: reject an empty file list, run the file loop, post the
      assistant and store the ownership row. Exceptions in the post-and-store
      block are swallowed and the reply body is still returned. */
  function CreateAgentSpec(t: Tables, agentName: string, firstMessage: string, systemPrompt: string,
                           userId: nat, files: seq<UploadedFile>,
                           ocr: nat -> HttpReply, upload: nat -> HttpReply,
                           post: HttpReply, dbFails: bool): AgentCreation
  {
    if files == [] then
      AgentCreation(t, Err(HttpException(400, Message("You must upload at least one file."))), [])
    else
      var b := Collect(Steps(files, ocr, upload), |files|);
      if b.failure.Some? then AgentCreation(t, Err(b.failure.value), b.sent)
      else if b.fileIds == [] then
        AgentCreation(t, Err(HttpException(400, Message("All uploaded files were empty."))), b.sent)
      else
        AgentCreation(
          AfterAgentInsert(t, CreatedAgentId(post), userId, dbFails),
          ReturnedBody(post),
          b.sent + [AssistantPost(BuildPayload(agentName, firstMessage, systemPrompt, b.fileIds))])
  }

  /** An empty file list is rejected with 400 before any request. */
  lemma CreateAgentNoFiles(t: Tables, agentName: string, firstMessage: string, systemPrompt: string,
                           userId: nat, ocr: nat -> HttpReply, upload: nat -> HttpReply,
                           post: HttpReply, dbFails: bool)
    ensures CreateAgentSpec(t, agentName, firstMessage, systemPrompt, userId, [], ocr, upload, post, dbFails)
            == AgentCreation(t, Err(HttpException(400, Message("You must upload at least one file."))), [])
  {
  }

  /** If file `k` is the first to fail, its error is the answer, only `k`
      files were uploaded, no assistant was posted and no row was written. */
  lemma CreateAgentFileFailure(t: Tables, agentName: string, firstMessage: string, systemPrompt: string,
                               userId: nat, files: seq<UploadedFile>,
                               ocr: nat -> HttpReply, upload: nat -> HttpReply,
                               post: HttpReply, dbFails: bool, k: nat)
    requires k < |files|
    requires forall i :: 0 <= i < k ==> ProcessFile(files[i], ocr(i), upload(i)).outcome.Ok?
    requires ProcessFile(files[k], ocr(k), upload(k)).outcome.Err?
    ensures var c := CreateAgentSpec(t, agentName, firstMessage, systemPrompt, userId, files, ocr, upload, post, dbFails);
            && c.tables == t
            && c.result == Err(ProcessFile(files[k], ocr(k), upload(k)).outcome.error)
            && CountOcrPosts(c.sent) == k + 1
            && CountFilePosts(c.sent) == k + (if RunOcr(ocr(k)).Ok? then 1 else 0)
            && CountAssistantPosts(c.sent) == 0
  {
    CollectFirstFailure(Steps(files, ocr, upload), k);
  }

  /** When every file succeeds: one upload per file, then exactly one
      assistant post whose knowledge base lists the upload ids in input order
      and whose only message is the system prompt. */
  lemma CreateAgentPayload(t: Tables, agentName: string, firstMessage: string, systemPrompt: string,
                           userId: nat, files: seq<UploadedFile>,
                           ocr: nat -> HttpReply, upload: nat -> HttpReply,
                           post: HttpReply, dbFails: bool)
    requires files != []
    requires forall i :: 0 <= i < |files| ==> ProcessFile(files[i], ocr(i), upload(i)).outcome.Ok?
    ensures var c := CreateAgentSpec(t, agentName, firstMessage, systemPrompt, userId, files, ocr, upload, post, dbFails);
            && CountFilePosts(c.sent) == |files|
            && CountAssistantPosts(c.sent) == 1
            && EndsWithPost(c.sent, files, ocr, upload, systemPrompt)
  {
    var steps := Steps(files, ocr, upload);
    CollectAllSucceed(steps, |files|);
    var b := Collect(steps, |files|);
    PostAfterBatch(b, agentName, firstMessage, systemPrompt);
    forall i | 0 <= i < |files|
      ensures b.fileIds[i] == ProcessFile(files[i], ocr(i), upload(i)).outcome.value
    {
      assert b.fileIds[i] == steps[i].outcome.value;
    }
  }

  /** The last request is the assistant post; its knowledge base lists the
      upload ids of the files in input order and its only message is the
      system prompt. */
  predicate EndsWithPost(sent: seq<Request>, files: seq<UploadedFile>,
                         ocr: nat -> HttpReply, upload: nat -> HttpReply, systemPrompt: string)
    requires forall i :: 0 <= i < |files| ==> ProcessFile(files[i], ocr(i), upload(i)).outcome.Ok?
  {
    && |sent| > 0 && sent[|sent| - 1].AssistantPost?
    && var p := sent[|sent| - 1].payload;
       && |p.model.knowledgeBase.fileIds| == |files|
       && (forall i :: 0 <= i < |files| ==>
             p.model.knowledgeBase.fileIds[i] == ProcessFile(files[i], ocr(i), upload(i)).outcome.value)
       && p.model.messages == [ChatMessage("system", systemPrompt)]
  }

  /** The request list once the files are through: the batch's requests and
      the one assistant post built from its ids. */
  lemma PostAfterBatch(b: Batch, agentName: string, firstMessage: string, systemPrompt: string)
    requires CountAssistantPosts(b.sent) == 0
    ensures var sent := b.sent + [AssistantPost(BuildPayload(agentName, firstMessage, systemPrompt, b.fileIds))];
            && CountFilePosts(sent) == CountFilePosts(b.sent)
            && CountAssistantPosts(sent) == 1
            && sent[|sent| - 1].payload.model.knowledgeBase.fileIds == b.fileIds
  {
    CountsAppend(b.sent, [AssistantPost(BuildPayload(agentName, firstMessage, systemPrompt, b.fileIds))]);
  }

  /** At most one row is added, and only for the id of a successful post;
      the other tables never change. Whatever happens in the post-and-store
      block, the reply body (when there is one) is what the caller gets. */
  lemma CreateAgentStoreWrite(t: Tables, agentName: string, firstMessage: string, systemPrompt: string,
                              userId: nat, files: seq<UploadedFile>,
                              ocr: nat -> HttpReply, upload: nat -> HttpReply,
                              post: HttpReply, dbFails: bool)
    ensures var c := CreateAgentSpec(t, agentName, firstMessage, systemPrompt, userId, files, ocr, upload, post, dbFails);
            && c.tables.users == t.users && c.tables.phones == t.phones
            && (c.tables == t || exists id ::
                  CreatedAgentId(post) == Some(id) && c.tables.agents == t.agents + [AgentRow(NextId(RowIds(t.agents, AgentRowId)), id, userId)])
            && (c.tables != t ==> CountAssistantPosts(c.sent) == 1 && SucceededWithJson(post) && !dbFails)
            && (WellFormed(t) ==> WellFormed(c.tables))
  {
    var steps := Steps(files, ocr, upload);
    if files != [] && Collect(steps, |files|).failure.None? && Collect(steps, |files|).fileIds != [] {
      var b := Collect(steps, |files|);
      var p := BuildPayload(agentName, firstMessage, systemPrompt, b.fileIds);
      CollectNoFailure(steps, |files|);
      CollectAllSucceed(steps, |files|);
      CountsAppend(b.sent, [AssistantPost(p)]);
      if WellFormed(t) {
        AfterAgentInsertWellFormed(t, CreatedAgentId(post), userId, dbFails);
      }
    }
  }

  /** The positive direction: once every file is through, a post that
      returns a string id not yet stored, with a working commit, stores
      exactly one ownership row for that id and the caller's user. */
  lemma CreateAgentStoresRow(t: Tables, agentName: string, firstMessage: string, systemPrompt: string,
                             userId: nat, files: seq<UploadedFile>,
                             ocr: nat -> HttpReply, upload: nat -> HttpReply,
                             post: HttpReply, id: string)
    requires files != []
    requires forall i :: 0 <= i < |files| ==> ProcessFile(files[i], ocr(i), upload(i)).outcome.Ok?
    requires CreatedAgentId(post) == Some(id) && !HasAgentId(t.agents, id)
    ensures CreateAgentSpec(t, agentName, firstMessage, systemPrompt, userId, files, ocr, upload, post, false).tables
            == t.(agents := t.agents + [AgentRow(NextId(RowIds(t.agents, AgentRowId)), id, userId)])
  {
    var steps := Steps(files, ocr, upload);
    CollectAllSucceed(steps, |files|);
    var b := Collect(steps, |files|);
    assert b.failure.None? && b.fileIds != [];
  }

  /** After such a creation `get_agents` for that user looks the new
      assistant up last, after the ones it already listed. */
  lemma CreateAgentThenListed(t: Tables, agentName: string, firstMessage: string, systemPrompt: string,
                              userId: nat, files: seq<UploadedFile>,
                              ocr: nat -> HttpReply, upload: nat -> HttpReply,
                              post: HttpReply, id: string)
    requires files != []
    requires forall i :: 0 <= i < |files| ==> ProcessFile(files[i], ocr(i), upload(i)).outcome.Ok?
    requires CreatedAgentId(post) == Some(id) && !HasAgentId(t.agents, id)
    ensures OwnedAgentIds(CreateAgentSpec(t, agentName, firstMessage, systemPrompt, userId, files, ocr, upload, post, false).tables.agents, userId)
            == OwnedAgentIds(t.agents, userId) + [id]
  {
    CreateAgentStoresRow(t, agentName, firstMessage, systemPrompt, userId, files, ocr, upload, post, id);
    OwnedAgentIdsAfterAdd(t.agents, AgentRow(NextId(RowIds(t.agents, AgentRowId)), id, userId), userId);
  }

  /** Once the files are through, the answer depends only on the post's
      reply: a failed store write is swallowed, an error status still returns
      its body, and only a missing or non-JSON body is a 500. */
  lemma CreateAgentSwallowsStoreErrors(t: Tables, agentName: string, firstMessage: string, systemPrompt: string,
                                       userId: nat, files: seq<UploadedFile>,
                                       ocr: nat -> HttpReply, upload: nat -> HttpReply,
                                       post: HttpReply, dbFails: bool)
    requires files != []
    requires forall i :: 0 <= i < |files| ==> ProcessFile(files[i], ocr(i), upload(i)).outcome.Ok?
    ensures CreateAgentSpec(t, agentName, firstMessage, systemPrompt, userId, files, ocr, upload, post, dbFails).result
            == (if post.Reply? && post.body.Some? then Ok(post.body.value) else Err(InternalServerError))
  {
    CollectAllSucceed(Steps(files, ocr, upload), |files|);
  }

  /** `create_agent` over the session `db`. */
  method CreateAgent(db: Db, agentName: string, firstMessage: string, systemPrompt: string,
                     userId: nat, files: seq<UploadedFile>,
                     ocr: nat -> HttpReply, upload: nat -> HttpReply,
                     post: HttpReply, dbFails: bool)
    returns (result: Result<Json>, sent: seq<Request>)
    requires db.Valid()
    modifies db
    ensures db.Valid()
    ensures AgentCreation(db.State(), result, sent) ==
            CreateAgentSpec(old(db.State()), agentName, firstMessage, systemPrompt, userId, files, ocr, upload, post, dbFails)
  {
    if files == [] {
      return Err(HttpException(400, Message("You must upload at least one file."))), [];
    }
    var fileIds, failure;
    fileIds, sent, failure := CollectFileIds(files, ocr, upload);
    if failure.Some? {
      return Err(failure.value), sent;
    }
    if fileIds == [] {
      return Err(HttpException(400, Message("All uploaded files were empty."))), sent;
    }
    var payload := BuildPayload(agentName, firstMessage, systemPrompt, fileIds);
    sent := sent + [AssistantPost(payload)];
    var agentId := CreatedAgentId(post);
    if agentId.Some? && !dbFails && !HasAgentId(db.agents, agentId.value) {
      db.AddAgent(agentId.value, userId);
    }
    result := ReturnedBody(post);
  }

  /** `db.query(Row).filter(Row.user_id == user_id).all()` projected on the
      remote id column: the keys of the user's rows, in table order. */
  function OwnedIds<R>(rows: seq<R>, owner: R -> nat, key: R -> string, userId: nat): (r: seq<string>)
    ensures |r| <= |rows|
  {
    if rows == [] then []
    else (if owner(rows[0]) == userId then [key(rows[0])] else []) + OwnedIds(rows[1..], owner, key, userId)
  }

  /** A key is selected exactly when some row of the user carries it. */
  lemma {:induction false} OwnedIdsMembers<R>(rows: seq<R>, owner: R -> nat, key: R -> string, userId: nat)
    ensures forall x :: x in OwnedIds(rows, owner, key, userId) <==>
              exists i :: 0 <= i < |rows| && owner(rows[i]) == userId && key(rows[i]) == x
  {
    if rows != [] {
      OwnedIdsMembers(rows[1..], owner, key, userId);
      forall x | (exists i :: 0 <= i < |rows| && owner(rows[i]) == userId && key(rows[i]) == x)
        ensures x in OwnedIds(rows, owner, key, userId)
      {
        var i :| 0 <= i < |rows| && owner(rows[i]) == userId && key(rows[i]) == x;
        if i > 0 {
          assert rows[1..][i - 1] == rows[i];
        }
      }
      forall x | x in OwnedIds(rows[1..], owner, key, userId)
        ensures exists i :: 0 <= i < |rows| && owner(rows[i]) == userId && key(rows[i]) == x
      {
        var j :| 0 <= j < |rows[1..]| && owner(rows[1..][j]) == userId && key(rows[1..][j]) == x;
        assert rows[j + 1] == rows[1..][j];
      }
    }
  }

  /** The selection keeps table order: selecting from two row blocks is
      selecting from each and concatenating. */
  lemma {:induction false} OwnedIdsAppend<R>(a: seq<R>, b: seq<R>, owner: R -> nat, key: R -> string, userId: nat)
    ensures OwnedIds(a + b, owner, key, userId) == OwnedIds(a, owner, key, userId) + OwnedIds(b, owner, key, userId)
  {
    if a != [] {
      var ab := a + b;
      assert ab[0] == a[0] && ab[1..] == a[1..] + b;
      OwnedIdsAppend(a[1..], b, owner, key, userId);
    } else {
      assert a + b == b;
    }
  }

  function OwnedAgentIds(agents: seq<AgentRow>, userId: nat): seq<string> {
    OwnedIds(agents, AgentOwner, AgentKey, userId)
  }

  function OwnedPhoneIds(phones: seq<PhoneRow>, userId: nat): seq<string> {
    OwnedIds(phones, PhoneOwner, PhoneKey, userId)
  }

  /** A newly stored agent row is listed last for its owner and for no one else. */
  lemma OwnedAgentIdsAfterAdd(agents: seq<AgentRow>, row: AgentRow, userId: nat)
    ensures OwnedAgentIds(agents + [row], userId) ==
            OwnedAgentIds(agents, userId) + (if row.userId == userId then [row.agentId] else [])
  {
    OwnedIdsAppend(agents, [row], AgentOwner, AgentKey, userId);
    assert [row][1..] == [];
  }

  /** `results.append(r.json())` guarded by `except Exception`: a reply whose
      body parses is kept whatever its status; anything else is skipped. */
  function Appended(reply: HttpReply): (r: seq<Json>)
    ensures |r| <= 1
  {
    if reply.Reply? && reply.body.Some? then [reply.body.value] else []
  }

  /** The best-effort loop over `ids`. */
  function FanOut(ids: seq<string>, reply: string -> HttpReply): (r: seq<Json>)
    ensures |r| <= |ids|
  {
    if ids == [] then [] else FanOut(ids[..|ids| - 1], reply) + Appended(reply(ids[|ids| - 1]))
  }

  /** The number of ids whose lookup is skipped. */
  function Skipped(ids: seq<string>, reply: string -> HttpReply): nat {
    if ids == [] then 0
    else Skipped(ids[..|ids| - 1], reply) + (if Appended(reply(ids[|ids| - 1])) == [] then 1 else 0)
  }

  /** Every lookup is either returned or skipped: a failed lookup costs that
      item only (with three ids and one failure, two bodies come back). */
  lemma {:induction false} FanOutLength(ids: seq<string>, reply: string -> HttpReply)
    ensures |FanOut(ids, reply)| + Skipped(ids, reply) == |ids|
  {
    if ids != [] {
      FanOutLength(ids[..|ids| - 1], reply);
    }
  }

  /** The items returned are the parsed bodies, in the order of the ids; when
      every body parses, each id contributes its own body. */
  lemma {:induction false} FanOutAllParsed(ids: seq<string>, reply: string -> HttpReply)
    requires forall i :: 0 <= i < |ids| ==> reply(ids[i]).Reply? && reply(ids[i]).body.Some?
    ensures |FanOut(ids, reply)| == |ids|
    ensures forall i :: 0 <= i < |ids| ==> FanOut(ids, reply)[i] == reply(ids[i]).body.value
  {
    if ids != [] {
      var init := ids[..|ids| - 1];
      assert forall i :: 0 <= i < |init| ==> init[i] == ids[i];
      FanOutAllParsed(init, reply);
    }
  }

  /** Every item returned is the parsed body of the lookup of one of the ids. */
  lemma {:induction false} FanOutFromReplies(ids: seq<string>, reply: string -> HttpReply)
    ensures forall j :: j in FanOut(ids, reply) ==>
              exists i :: 0 <= i < |ids| && reply(ids[i]).Reply? && reply(ids[i]).body == Some(j)
  {
    if ids != [] {
      var init := ids[..|ids| - 1];
      FanOutFromReplies(init, reply);
      forall j | j in FanOut(ids, reply)
        ensures exists i :: 0 <= i < |ids| && reply(ids[i]).Reply? && reply(ids[i]).body == Some(j)
      {
        if j in FanOut(init, reply) {
          var i :| 0 <= i < |init| && reply(init[i]).Reply? && reply(init[i]).body == Some(j);
          assert init[i] == ids[i];
        } else {
          assert j in Appended(reply(ids[|ids| - 1]));
        }
      }
    }
  }

  /** The registry loop shared by `get_agents` and `get_phones`: one GET per id,
      in order, keeping each body that parses. */
  method FetchEach(ids: seq<string>, reply: string -> HttpReply, isPhone: bool)
    returns (results: seq<Json>, sent: seq<Request>)
    ensures results == FanOut(ids, reply)
    ensures |sent| == |ids|
    ensures forall i :: 0 <= i < |ids| ==> sent[i] == (if isPhone then PhoneGet(ids[i]) else AssistantGet(ids[i]))
  {
    results, sent := [], [];
    for i := 0 to |ids|
      invariant results == FanOut(ids[..i], reply)
      invariant |sent| == i
      invariant forall k :: 0 <= k < i ==> sent[k] == (if isPhone then PhoneGet(ids[k]) else AssistantGet(ids[k]))
    {
      assert ids[..i + 1][..i] == ids[..i];
      sent := sent + [if isPhone then PhoneGet(ids[i]) else AssistantGet(ids[i])];
      var r := reply(ids[i]);
      if r.Reply? && r.body.Some? {
        results := results + [r.body.value];
      }
    }
    assert ids[..|ids|] == ids;
  }

  /** `get_agents`: the remote assistant of each of the user's rows. */
  method GetAgents(db: Db, userId: nat, reply: string -> HttpReply) returns (results: seq<Json>, sent: seq<Request>)
    ensures results == FanOut(OwnedAgentIds(db.agents, userId), reply)
    ensures |sent| == |OwnedAgentIds(db.agents, userId)|
    ensures forall i :: 0 <= i < |sent| ==> sent[i] == AssistantGet(OwnedAgentIds(db.agents, userId)[i])
  {
    results, sent := FetchEach(OwnedAgentIds(db.agents, userId), reply, false);
  }

  /** `get_phones`: the remote phone number of each of the user's rows. */
  method GetPhones(db: Db, userId: nat, reply: string -> HttpReply) returns (results: seq<Json>, sent: seq<Request>)
    ensures results == FanOut(OwnedPhoneIds(db.phones, userId), reply)
    ensures |sent| == |OwnedPhoneIds(db.phones, userId)|
    ensures forall i :: 0 <= i < |sent| ==> sent[i] == PhoneGet(OwnedPhoneIds(db.phones, userId)[i])
  {
    results, sent := FetchEach(OwnedPhoneIds(db.phones, userId), reply, true);
  }

  /** What `delete_assistant` answers: the error object of a failed remote
      delete (with the reply text when there was a reply), `null` after the
      local delete, or the 500 of a failed local delete. */
  datatype DeleteOutcome =
    | RemoteDeleteFailed(details: Option<string>)
    | Deleted
    | LocalDeleteFailed(error: HttpException)

  datatype Deletion = Deletion(tables: Tables, outcome: DeleteOutcome, sent: seq<Request>)

  /** `delete_assistant`: the remote delete first; only when it did not fail,
      the local delete, committed or rolled back. */
  function DeleteAssistantSpec(t: Tables, id: string, reply: HttpReply, dbFails: bool): Deletion {
    match reply
    case TransportError => Deletion(t, RemoteDeleteFailed(None), [AssistantDelete(id)])
    case Reply(status, text, _) =>
      if IsErrorStatus(status) then Deletion(t, RemoteDeleteFailed(Some(text)), [AssistantDelete(id)])
      else if dbFails then
        Deletion(t, LocalDeleteFailed(HttpException(500, ExceptionText("Error deleting assistant from DB: "))), [AssistantDelete(id)])
      else Deletion(t.(agents := WithoutAgent(t.agents, id)), Deleted, [AssistantDelete(id)])
  }

  /** The store is touched only after a successful remote delete, and then
      loses exactly the rows with that agent id (at most one); a failed
      remote delete or a rolled-back local one leaves every table as it was. */
  lemma DeleteAssistantStore(t: Tables, id: string, reply: HttpReply, dbFails: bool)
    requires WellFormed(t)
    ensures var d := DeleteAssistantSpec(t, id, reply, dbFails);
            && d.sent == [AssistantDelete(id)]
            && (d.outcome.RemoteDeleteFailed? <==> reply.TransportError? || IsErrorStatus(reply.status))
            && (!d.outcome.Deleted? ==> d.tables == t)
            && (d.outcome.Deleted? ==>
                  && d.tables.users == t.users && d.tables.phones == t.phones
                  && (forall row :: row in d.tables.agents <==> row in t.agents && row.agentId != id)
                  && |t.agents| - 1 <= |d.tables.agents| <= |t.agents|)
            && WellFormed(d.tables)
  {
    WithoutAgentExact(t.agents, id);
    WithoutAgentUnique(t.agents, id);
  }

  /** `delete_assistant` over the session `db`. */
  method DeleteAssistant(db: Db, id: string, reply: HttpReply, dbFails: bool) returns (outcome: DeleteOutcome, sent: seq<Request>)
    requires db.Valid()
    modifies db
    ensures db.Valid()
    ensures Deletion(db.State(), outcome, sent) == DeleteAssistantSpec(old(db.State()), id, reply, dbFails)
  {
    sent := [AssistantDelete(id)];
    if reply.TransportError? {
      return RemoteDeleteFailed(None), sent;
    }
    if IsErrorStatus(reply.status) {
      return RemoteDeleteFailed(Some(reply.text)), sent;
    }
    if dbFails {
      return LocalDeleteFailed(HttpException(500, ExceptionText("Error deleting assistant from DB: "))), sent;
    }
    var deletedRows := db.DeleteAgents(id);
    outcome := Deleted;
  }
}
