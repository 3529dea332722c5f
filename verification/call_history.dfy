/** The call-history endpoints: `list_calls` (filter validation and query
    parameters), `filter_messages` and `get_call`, which applies it to the
    top-level and the artifact transcripts of a call. */
module CallHistory {
  import opened Common
  import opened Json
  import opened Http
  import opened Outbound

  /** The query parameters sent: `assistantId` when an assistant id is given,
      then `phoneNumberId` when a phone id is given. */
  function CallsParams(assistantId: Option<string>, phoneId: Option<string>): seq<(string, string)> {
    (if Given(assistantId) then [("assistantId", assistantId.value)] else []) +
    (if Given(phoneId) then [("phoneNumberId", phoneId.value)] else [])
  }

  predicate HasParam(params: seq<(string, string)>, key: string, value: string) {
    exists i :: 0 <= i < |params| && params[i] == (key, value)
  }

  predicate HasKey(params: seq<(string, string)>, key: string) {
    exists i :: 0 <= i < |params| && params[i].0 == key
  }

  /** Each filter is sent exactly when it is non-empty, with its own value,
      and nothing else is sent. */
  lemma CallsParamsExact(assistantId: Option<string>, phoneId: Option<string>)
    ensures HasKey(CallsParams(assistantId, phoneId), "assistantId") <==> Given(assistantId)
    ensures HasKey(CallsParams(assistantId, phoneId), "phoneNumberId") <==> Given(phoneId)
    ensures forall v :: HasParam(CallsParams(assistantId, phoneId), "assistantId", v) <==>
                          Given(assistantId) && v == assistantId.value
    ensures forall v :: HasParam(CallsParams(assistantId, phoneId), "phoneNumberId", v) <==>
                          Given(phoneId) && v == phoneId.value
    ensures forall i :: 0 <= i < |CallsParams(assistantId, phoneId)| ==>
              CallsParams(assistantId, phoneId)[i].0 in {"assistantId", "phoneNumberId"}
  {
    var p := CallsParams(assistantId, phoneId);
    if Given(assistantId) {
      assert p[0] == ("assistantId", assistantId.value);
    }
    if Given(phoneId) {
      assert p[|p| - 1] == ("phoneNumberId", phoneId.value);
    }
  }

  datatype CallsListing = CallsListing(result: Result<Json>, sent: seq<Request>)

  /** `list_calls`: 400 before any request when neither filter is given;
      otherwise one GET, whose JSON body is the answer, and any failure of
      that call is a 500. */
  function ListCalls(assistantId: Option<string>, phoneId: Option<string>, reply: HttpReply): CallsListing {
    if !Given(assistantId) && !Given(phoneId) then
      CallsListing(Err(HttpException(400, Message("You must provide assistant_id or phone_id"))), [])
    else
      CallsListing(
        if SucceededWithJson(reply) then Ok(reply.body.value) else Err(HttpException(500, ExceptionText(""))),
        [CallsGet(CallsParams(assistantId, phoneId))])
  }

  /** The 400 happens exactly when both filters are missing or empty, and it
      is the only answer given without calling the service. */
  lemma ListCallsValidation(assistantId: Option<string>, phoneId: Option<string>, reply: HttpReply)
    ensures var l := ListCalls(assistantId, phoneId, reply);
            && (l.result.Err? && l.result.error.status == 400 <==> !Given(assistantId) && !Given(phoneId))
            && (l.sent == [] <==> !Given(assistantId) && !Given(phoneId))
            && (l.sent != [] ==> |l.sent| == 1 && l.sent[0].CallsGet? && l.sent[0].params != [])
            && (l.result.Ok? <==> l.sent != [] && SucceededWithJson(reply))
  {
  }

  /** A transcript entry's role, as `m.get("role")`. */
  function Role(m: Json): Option<Json>
    requires m.JObj?
  {
    Get(m.fields, "role")
  }

  predicate IsSystem(m: Json)
    requires m.JObj?
  {
    Role(m) == Some(JStr("system"))
  }

  /** `m.get("role") in {"tool_calls", "tool_call_result"}`. */
  predicate IsBlocked(m: Json)
    requires m.JObj?
  {
    Role(m) == Some(JStr("tool_calls")) || Role(m) == Some(JStr("tool_call_result"))
  }

  /** The role can be looked up in a set: it is not a list or a dict. */
  predicate HashableRole(m: Json)
    requires m.JObj?
  {
    !(Role(m).Some? && (Role(m).value.JArr? || Role(m).value.JObj?))
  }

  /** The filter can test the entry: it is a dict (it has `.get`) and its
      role is hashable. */
  predicate Filterable(m: Json) {
    m.JObj? && HashableRole(m)
  }

  /** `[m for m in ms if m.get("role") not in blocked]`. */
  function KeepUnblocked(ms: seq<Json>): (r: seq<Json>)
    requires forall i :: 0 <= i < |ms| ==> ms[i].JObj?
    ensures |r| <= |ms|
    ensures forall i :: 0 <= i < |r| ==> r[i].JObj? && !IsBlocked(r[i])
  {
    if ms == [] then []
    else (if IsBlocked(ms[0]) then [] else [ms[0]]) + KeepUnblocked(ms[1..])
  }

  /** An entry is kept exactly when it is in the input and not blocked. */
  lemma {:induction false} KeepUnblockedMembers(ms: seq<Json>, m: Json)
    requires forall i :: 0 <= i < |ms| ==> ms[i].JObj?
    ensures m in KeepUnblocked(ms) <==> m in ms && !IsBlocked(m)
  {
    if ms != [] {
      KeepUnblockedMembers(ms[1..], m);
      assert ms == [ms[0]] + ms[1..];
    }
  }

  /** The filter works entry by entry, so it keeps the input order: filtering
      a concatenation concatenates the filtered parts. */
  lemma {:induction false} KeepUnblockedAppend(a: seq<Json>, b: seq<Json>)
    requires forall i :: 0 <= i < |a| ==> a[i].JObj?
    requires forall i :: 0 <= i < |b| ==> b[i].JObj?
    ensures KeepUnblocked(a + b) == KeepUnblocked(a) + KeepUnblocked(b)
  {
    if a != [] {
      var ab := a + b;
      assert ab[0] == a[0] && ab[1..] == a[1..] + b;
      KeepUnblockedAppend(a[1..], b);
      assert KeepUnblocked(ab) == (if IsBlocked(a[0]) then [] else [a[0]]) + KeepUnblocked(a[1..] + b);
    } else {
      assert a + b == b;
    }
  }

  /** `filter_messages`; None when it raises (an entry without `.get`, or
      an unhashable role in the membership test). */
  function FilterMessages(msgs: seq<Json>): (r: Option<seq<Json>>)
    ensures r.Some? ==> |r.value| <= |msgs|
    ensures r.Some? ==> forall i :: 0 <= i < |r.value| ==> r.value[i].JObj? && !IsBlocked(r.value[i])
  {
    if msgs == [] then Some([])
    else if !msgs[0].JObj? then None
    else
      var rest := if IsSystem(msgs[0]) then msgs[1..] else msgs;
      if forall i :: 0 <= i < |rest| ==> Filterable(rest[i]) then Some(KeepUnblocked(rest)) else None
  }

  /** With well-formed entries the filter never raises, and it is "keep the
      unblocked entries, then drop the first one if it is the system prompt":
      only position 0 is ever dropped for being a system message. */
  lemma FilterMessagesCharacterised(msgs: seq<Json>)
    requires forall i :: 0 <= i < |msgs| ==> msgs[i].JObj? && HashableRole(msgs[i])
    ensures FilterMessages(msgs).Some?
    ensures msgs != [] && IsSystem(msgs[0]) ==>
              KeepUnblocked(msgs) != [] && KeepUnblocked(msgs)[0] == msgs[0] &&
              FilterMessages(msgs).value == KeepUnblocked(msgs)[1..]
    ensures !(msgs != [] && IsSystem(msgs[0])) ==> FilterMessages(msgs).value == KeepUnblocked(msgs)
  {
    if msgs != [] {
      var tail := msgs[1..];
      assert forall i :: 0 <= i < |tail| ==> tail[i] == msgs[i + 1];
      KeepUnblockedCons(msgs);
      if IsSystem(msgs[0]) {
        assert forall i :: 0 <= i < |tail| ==> Filterable(tail[i]);
      } else {
        assert forall i :: 0 <= i < |msgs| ==> Filterable(msgs[i]);
      }
    }
  }

  lemma KeepUnblockedCons(msgs: seq<Json>)
    requires msgs != []
    requires forall i :: 0 <= i < |msgs| ==> msgs[i].JObj?
    ensures !IsBlocked(msgs[0]) ==> KeepUnblocked(msgs) == [msgs[0]] + KeepUnblocked(msgs[1..])
  {
  }

  /** The filter raises only on an entry that is not a dict or whose role
      cannot be looked up in a set. */
  lemma FilterMessagesRaises(msgs: seq<Json>)
    requires FilterMessages(msgs).None?
    ensures exists i :: 0 <= i < |msgs| && !Filterable(msgs[i])
  {
    if msgs[0].JObj? && IsSystem(msgs[0]) {
      var i :| 0 <= i < |msgs[1..]| && !Filterable(msgs[1..][i]);
      assert !Filterable(msgs[i + 1]);
    }
  }

  /** The empty transcript is returned as is. */
  lemma FilterMessagesEmpty()
    ensures FilterMessages([]) == Some([])
  {
  }

  function Entry(role: string): (m: Json)
    ensures m.JObj? && Role(m) == Some(JStr(role)) && Filterable(m)
  {
    JObj([("role", JStr(role))])
  }

  /** `[system, user, tool_calls, assistant]` becomes `[user, assistant]`. */
  lemma FilterMessagesExample()
    ensures FilterMessages([Entry("system"), Entry("user"), Entry("tool_calls"), Entry("assistant")]) ==
            Some([Entry("user"), Entry("assistant")])
  {
    var s, u, t, a := Entry("system"), Entry("user"), Entry("tool_calls"), Entry("assistant");
    assert IsSystem(s) && IsBlocked(t) && !IsBlocked(u) && !IsBlocked(a);
    assert [s, u, t, a][1..] == [u, t, a] && [u, t, a][1..] == [t, a] && [t, a][1..] == [a];
    assert KeepUnblocked([a]) == [a];
    assert KeepUnblocked([t, a]) == [a];
    assert KeepUnblocked([u, t, a]) == [u, a];
    assert forall i :: 0 <= i < 3 ==> Filterable([u, t, a][i]);
  }

  /** A system message after position 0 stays. */
  lemma FilterMessagesKeepsLaterSystem()
    ensures FilterMessages([Entry("user"), Entry("system")]) == Some([Entry("user"), Entry("system")])
  {
    var u, s := Entry("user"), Entry("system");
    assert !IsSystem(u) && !IsBlocked(u) && !IsBlocked(s);
    assert [u, s][1..] == [s];
    assert KeepUnblocked([s]) == [s];
    assert KeepUnblocked([u, s]) == [u, s];
    assert forall i :: 0 <= i < 2 ==> Filterable([u, s][i]);
  }

  /** The filter is not idempotent: a second pass drops a second leading
      system message. */
  lemma FilterMessagesNotIdempotent()
    ensures FilterMessages([Entry("system"), Entry("system"), Entry("user")]) == Some([Entry("system"), Entry("user")])
    ensures FilterMessages([Entry("system"), Entry("user")]) == Some([Entry("user")])
  {
    var s, u := Entry("system"), Entry("user");
    assert IsSystem(s) && !IsBlocked(s) && !IsBlocked(u);
    assert [s, s, u][1..] == [s, u] && [s, u][1..] == [u];
    assert KeepUnblocked([u]) == [u];
    assert KeepUnblocked([s, u]) == [s, u];
    assert forall i :: 0 <= i < 2 ==> Filterable([s, u][i]);
    assert forall i :: 0 <= i < 1 ==> Filterable([u][i]);
  }

  /** `if isinstance(d.get("messages"), list): d["messages"] = filter_messages(...)`
      on the fields of a dict; None when the filter raises. */
  function FilterMessagesField(fields: seq<(string, Json)>): Option<seq<(string, Json)>> {
    match Get(fields, "messages")
    case Some(JArr(ms)) =>
      (match FilterMessages(ms)
       case None => None
       case Some(kept) => Some(Put(fields, "messages", JArr(kept))))
    case _ => Some(fields)
  }

  /** A list under `messages` is replaced by its filtered copy, any other
      value is left alone, and no other key changes. */
  lemma FilterMessagesFieldEffect(fields: seq<(string, Json)>)
    ensures FilterMessagesField(fields).None? <==>
              Get(fields, "messages").Some? && Get(fields, "messages").value.JArr? &&
              FilterMessages(Get(fields, "messages").value.items).None?
    ensures var r := FilterMessagesField(fields);
            r.Some? ==>
              && (forall k :: k != "messages" ==> Get(r.value, k) == Get(fields, k))
              && (if Get(fields, "messages").Some? && Get(fields, "messages").value.JArr?
                  then Get(r.value, "messages") == Some(JArr(FilterMessages(Get(fields, "messages").value.items).value))
                  else Get(r.value, "messages") == Get(fields, "messages"))
  {
  }

  /** The artifact step: an absent artifact is a no-op (`.get("artifact", {})`),
      a dict has its own `messages` filtered in place, and any other value
      raises on `.get`. */
  function FilterArtifact(fields: seq<(string, Json)>): Option<seq<(string, Json)>> {
    match Get(fields, "artifact")
    case None => Some(fields)
    case Some(JObj(artifact)) =>
      (match FilterMessagesField(artifact)
       case None => None
       case Some(filtered) => Some(Put(fields, "artifact", JObj(filtered))))
    case Some(_) => None
  }

  /** `get_call`: the service's error status and text are passed through;
      a transport error, a body that is not a JSON dict, or a raising filter
      is a 500; otherwise the call with both transcripts filtered. */
  function GetCall(reply: HttpReply): Result<Json> {
    match reply
    case TransportError => Err(InternalServerError)
    case Reply(status, text, body) =>
      if IsErrorStatus(status) then Err(HttpException(status, Message(text)))
      else if body.None? || !body.value.JObj? then Err(InternalServerError)
      else
        match FilterMessagesField(body.value.fields)
        case None => Err(InternalServerError)
        case Some(withMessages) =>
          (match FilterArtifact(withMessages)
           case None => Err(InternalServerError)
           case Some(withArtifact) => Ok(JObj(withArtifact)))
  }

  /** What `get_call` answers: the service's own error for an error status;
      otherwise, when it succeeds, the same dict except that a top-level
      `messages` list is filtered and an `artifact` dict has its `messages`
      list filtered, every other key (of both) unchanged; and it succeeds
      exactly when the reply is such a dict and no filter raises. */
  lemma GetCallEffect(reply: HttpReply)
    ensures reply.Reply? && IsErrorStatus(reply.status) ==>
              GetCall(reply) == Err(HttpException(reply.status, Message(reply.text)))
    ensures GetCall(reply).Ok? ==>
              && SucceededWithJson(reply) && reply.body.value.JObj?
              && var d := reply.body.value.fields;
                 var r := GetCall(reply).value;
                 && r.JObj?
                 && (forall k :: k != "messages" && k != "artifact" ==> Get(r.fields, k) == Get(d, k))
                 && (if Get(d, "messages").Some? && Get(d, "messages").value.JArr?
                     then Get(r.fields, "messages") == Some(JArr(FilterMessages(Get(d, "messages").value.items).value))
                     else Get(r.fields, "messages") == Get(d, "messages"))
                 && (Get(d, "artifact").None? ==> Get(r.fields, "artifact").None?)
                 && (Get(d, "artifact").Some? ==>
                       Get(d, "artifact").value.JObj? && Get(r.fields, "artifact").Some? &&
                       Get(r.fields, "artifact").value.JObj? &&
                       FilterMessagesField(Get(d, "artifact").value.fields) ==
                         Some(Get(r.fields, "artifact").value.fields))
    ensures GetCall(reply).Ok? <==> GetCallSucceeds(reply)
  {
    if SucceededWithJson(reply) && reply.body.value.JObj? {
      var d := reply.body.value.fields;
      FilterMessagesFieldEffect(d);
      if FilterMessagesField(d).Some? {
        var m := FilterMessagesField(d).value;
        assert Get(m, "artifact") == Get(d, "artifact");
      }
    }
  }

  /** When `get_call` answers with the call: a JSON dict without error
      status whose message filters do not raise, and whose `artifact`, when
      present, is a dict whose own filter does not raise. */
  predicate GetCallSucceeds(reply: HttpReply) {
    && SucceededWithJson(reply) && reply.body.value.JObj?
    && var d := reply.body.value.fields;
       && FilterMessagesField(d).Some?
       && (Get(d, "artifact").None? ||
           (Get(d, "artifact").value.JObj? && FilterMessagesField(Get(d, "artifact").value.fields).Some?))
  }

  /** `get_call` raises a 500 on a present artifact that is not a dict. */
  lemma GetCallArtifactNotDict(reply: HttpReply)
    requires SucceededWithJson(reply) && reply.body.value.JObj?
    requires FilterMessagesField(reply.body.value.fields).Some?
    requires Get(reply.body.value.fields, "artifact").Some? && !Get(reply.body.value.fields, "artifact").value.JObj?
    ensures GetCall(reply) == Err(InternalServerError)
  {
    FilterMessagesFieldEffect(reply.body.value.fields);
  }
}
