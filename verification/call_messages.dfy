/** The call detail page: `formatBoolishText`, the message list of
    `renderMessages` (which array it walks, the hint, each message's role,
    badge, seconds and text) and the link fallbacks of `renderLinks`. A
    property that is undefined is None; reading a property of `null` throws,
    which the page's `catch` turns into its connection-error view (None). */
module CallMessages {
  import opened Common
  import opened Text
  import opened Json
  import opened Http
  import opened DisplayFormat
  import AgentDashboard
  import CallHistory

  /** `formatBoolishText(v)`: the two plain words, else `String(v)`. */
  function FormatBoolishText(v: Json): string {
    match Boolish(v)
    case Some(b) => if b then "true" else "false"
    case None => JsString(v)
  }

  /** Formatting its own output again changes nothing. */
  lemma FormatBoolishTextIdempotent(v: Json)
    ensures FormatBoolishText(JStr(FormatBoolishText(v))) == FormatBoolishText(v)
  {
    assert Lower("true") == "true" && Lower("false") == "false";
  }

  /** The detail page shows the dashboard's cell without its badge and
      without escaping. */
  lemma FormatBoolishTextMatchesDashboard(v: Json)
    ensures Boolish(v) == Some(true) ==> AgentDashboard.FormatBoolish(v) == "✅ " + FormatBoolishText(v)
    ensures Boolish(v) == Some(false) ==> AgentDashboard.FormatBoolish(v) == "❌ " + FormatBoolishText(v)
    ensures Boolish(v).None? ==> AgentDashboard.FormatBoolish(v) == EscapeHtml(FormatBoolishText(v))
  {
  }

  /** `o?.key` on a property that may be undefined. */
  function MemberOf(o: Option<Json>, key: string): Option<Json> {
    match o
    case None => None
    case Some(j) => Member(j, key)
  }

  /** `call.artifact?.messages` when it is an array, else no messages. */
  function ArtifactMessages(call: Json): seq<Json> {
    var am := MemberOf(Member(call, "artifact"), "messages");
    if am.Some? && am.value.JArr? then am.value.items else []
  }

  /** The list `renderMessages` walks: `messages` if it is an array, else
      `artifact.messages` if that is one, else none; None when `call` is null. */
  function MessagesOf(call: Json): (r: Option<seq<Json>>)
    ensures r.None? <==> call.JNull?
    ensures r.Some? && Member(call, "messages").Some? && Member(call, "messages").value.JArr? ==>
              r.value == Member(call, "messages").value.items
    ensures r.Some? && !(Member(call, "messages").Some? && Member(call, "messages").value.JArr?) ==>
              r.value == ArtifactMessages(call)
  {
    if call.JNull? then None
    else match Member(call, "messages")
      case Some(JArr(ms)) => Some(ms)
      case _ =>
        match MemberOf(Member(call, "artifact"), "messages")
        case Some(JArr(ms)) => Some(ms)
        case _ => Some([])
  }

  /** `${msgs.length} messages`: the count can be read back from the hint. */
  function Hint(n: nat): (r: string)
    ensures |r| > 9 && r[|r| - 9..] == " messages"
    ensures AllDigits(r[..|r| - 9]) && ParseDigits(r[..|r| - 9]) == n
  {
    var digits := NatToString(n);
    ParseNatToString(n);
    var r := digits + " messages";
    assert r[..|r| - 9] == digits;
    r
  }

  /** `(m.role || "system").toLowerCase()`; None when `m` is null or a
      truthy role is not a string (it has no `toLowerCase`). */
  function RoleOf(m: Json): (r: Option<string>)
    ensures r.None? <==> m.JNull? || (JsTruthy(Member(m, "role")) && !Member(m, "role").value.JStr?)
  {
    if m.JNull? then None
    else
      var role := Member(m, "role");
      if !JsTruthy(role) then Some("system")
      else if role.value.JStr? then Some(Lower(role.value.s))
      else None
  }

  /** The badge class for a (lower-cased) role. */
  function BadgeClass(role: string): (r: string)
    ensures r == "system" || r == "bot" || r == "user"
    ensures r == "system" <==> Contains(role, "system")
    ensures r == "user" <==> !Contains(role, "system") && !Contains(role, "bot") && !Contains(role, "assistant")
  {
    if Contains(role, "system") then "system"
    else if Contains(role, "bot") || Contains(role, "assistant") then "bot"
    else "user"
  }

  /** `${m.secondsFromStart}s`, or nothing when it is null or undefined. */
  function SecondsText(m: Json): string {
    var v := Member(m, "secondsFromStart");
    if v.Some? && !v.value.JNull? then JsString(v.value) + "s" else ""
  }

  /** `m.message || m.content || ""`, as text. */
  function MessageText(m: Json): string {
    var message := Member(m, "message");
    var content := Member(m, "content");
    if JsTruthy(message) then JsString(message.value)
    else if JsTruthy(content) then JsString(content.value)
    else ""
  }

  /** One entry: its badge class and the role, seconds and text that the
      entry's markup interpolates, each through `escapeHtml`. */
  datatype RenderedItem = RenderedItem(badge: string, role: string, seconds: string, text: string)

  /** The entry for one message; None when computing its role throws. */
  function RenderItem(m: Json): Option<RenderedItem> {
    match RoleOf(m)
    case None => None
    case Some(role) => Some(RenderedItem(BadgeClass(role), role, SecondsText(m), MessageText(m)))
  }

  /** The entry's markup after escaping: safe to put into HTML and decoding
      back to the role and the text; its badge is one of the three classes. */
  lemma RenderItemSafe(m: Json)
    requires RenderItem(m).Some?
    ensures var it := RenderItem(m).value;
            && HtmlSafe(EscapeHtml(it.role)) && HtmlSafe(EscapeHtml(it.seconds)) && HtmlSafe(EscapeHtml(it.text))
            && UnescapeHtml(EscapeHtml(it.role)) == RoleOf(m).value
            && UnescapeHtml(EscapeHtml(it.text)) == MessageText(m)
            && (it.badge == "system" || it.badge == "bot" || it.badge == "user")
  {
    var role := RoleOf(m).value;
    EscapeHtmlSafe(role);
    EscapeHtmlSafe(SecondsText(m));
    EscapeHtmlSafe(MessageText(m));
    EscapeHtmlRoundTrip(role);
    EscapeHtmlRoundTrip(MessageText(m));
  }

  /** A message without a role (or with a falsy one) is shown as "system". */
  lemma MissingRoleIsSystem(m: Json)
    requires !m.JNull? && !JsTruthy(Member(m, "role"))
    ensures RenderItem(m).Some? && RenderItem(m).value.badge == "system"
  {
    assert "system"[..6] == "system";
  }

  lemma {:induction false} ContainsInfix(p: string, sub: string, q: string)
    ensures Contains(p + sub + q, sub)
    decreases |p|
  {
    var s := p + sub + q;
    if p == [] {
      assert s[..|sub|] == sub;
    } else {
      assert s[1..] == p[1..] + sub + q;
      ContainsInfix(p[1..], sub, q);
    }
  }

  lemma LowerAppend(a: string, b: string)
    ensures Lower(a + b) == Lower(a) + Lower(b)
  {
    assert forall i :: 0 <= i < |a + b| ==> (a + b)[i] == if i < |a| then a[i] else b[i - |a|];
  }

  /** Every character of a contained string occurs in the string. */
  lemma {:induction false} ContainsChars(s: string, sub: string, c: char)
    requires Contains(s, sub) && c in sub
    ensures c in s
    decreases |s|
  {
    if s[..|sub|] == sub {
      var i :| 0 <= i < |sub| && sub[i] == c;
      assert s[i] == c;
    } else {
      ContainsChars(s[1..], sub, c);
    }
  }

  /** The badge test ignores case and position: a role with "SYSTEM",
      "System" or "system" anywhere in it gets the system badge. */
  lemma SystemAnywhereInRole(m: Json, p: string, q: string)
    requires !m.JNull? && Member(m, "role") == Some(JStr(p + "SYSTEM" + q))
    ensures RoleOf(m).Some? && BadgeClass(RoleOf(m).value) == "system"
  {
    LowerSystemInfix(p, q);
  }

  lemma LowerSystemInfix(p: string, q: string)
    ensures Contains(Lower(p + "SYSTEM" + q), "system")
  {
    LowerAppend(p + "SYSTEM", q);
    LowerAppend(p, "SYSTEM");
    LowerSystemWord();
    ContainsInfix(Lower(p), "system", Lower(q));
  }

  lemma LowerSystemWord()
    ensures Lower("SYSTEM") == "system"
  {
    var l := Lower("SYSTEM");
    assert l[0] == 's' && l[1] == 'y' && l[2] == 's' && l[3] == 't' && l[4] == 'e' && l[5] == 'm';
  }

  /** A role naming the assistant, without "system" in it, gets the bot
      badge. */
  lemma AssistantRoleIsBot(role: string)
    requires Contains(role, "assistant") && 'y' !in role
    ensures BadgeClass(role) == "bot"
  {
    if Contains(role, "system") {
      ContainsChars(role, "system", 'y');
    }
  }

  /** What the message area shows: the fallback of transcript and summary,
      or the hint and one entry per message (texts before `escapeHtml`). */
  datatype MessagesView =
    | NoStructured(transcript: string, summary: Option<string>)
    | Listed(hint: string, items: seq<RenderedItem>)

  /** The fallback when there are no messages: `transcript`, else
      `artifact.transcript`, else the placeholder; `summary`, else
      `analysis.summary`, shown only when there is one. */
  function Fallback(call: Json): MessagesView {
    var transcript := JsOr(Member(call, "transcript"), MemberOf(Member(call, "artifact"), "transcript"));
    var summary := JsOr(Member(call, "summary"), MemberOf(Member(call, "analysis"), "summary"));
    NoStructured(
      if JsTruthy(transcript) then JsString(transcript.value) else "No transcript available",
      if JsTruthy(summary) then Some(JsString(summary.value)) else None)
  }

  /** No message's role throws. */
  predicate AllRender(msgs: seq<Json>) {
    forall i :: 0 <= i < |msgs| ==> RenderItem(msgs[i]).Some?
  }

  /** The entries are exactly those of the messages, in order. */
  predicate Rendered(msgs: seq<Json>, items: seq<RenderedItem>) {
    |items| == |msgs| && forall i :: 0 <= i < |msgs| ==> RenderItem(msgs[i]) == Some(items[i])
  }

  /** The `forEach` over the messages; None when an entry throws. */
  method RenderEach(msgs: seq<Json>) returns (items: Option<seq<RenderedItem>>)
    ensures items.None? <==> !AllRender(msgs)
    ensures items.Some? ==> Rendered(msgs, items.value)
  {
    var done: seq<RenderedItem> := [];
    for i := 0 to |msgs|
      invariant |done| == i
      invariant forall k :: 0 <= k < i ==> RenderItem(msgs[k]) == Some(done[k])
    {
      var item := RenderItem(msgs[i]);
      if item.None? {
        return None;
      }
      done := done + [item.value];
    }
    items := Some(done);
  }

  /** `renderMessages(call)`. A message whose role throws ends the page in
      the connection-error view, which replaces the entries already added:
      None. */
  method RenderMessages(call: Json) returns (view: Option<MessagesView>)
    ensures view.None? <==> MessagesOf(call).None? || !AllRender(MessagesOf(call).value)
    ensures MessagesOf(call) == Some([]) ==> view == Some(Fallback(call))
    ensures view.Some? && MessagesOf(call).value != [] ==>
              view.value.Listed? && view.value.hint == Hint(|MessagesOf(call).value|) &&
              Rendered(MessagesOf(call).value, view.value.items)
  {
    var source := MessagesOf(call);
    if source.None? {
      return None;
    }
    var msgs := source.value;
    if |msgs| == 0 {
      return Some(Fallback(call));
    }
    var items := RenderEach(msgs);
    if items.None? {
      return None;
    }
    view := Some(Listed(Hint(|msgs|), items.value));
  }

  /** The fallback shows the top-level transcript when there is one, the
      artifact's otherwise, and the placeholder only when neither is there;
      the summary entry appears exactly when a summary is there. */
  lemma FallbackShowsTranscript(call: Json)
    ensures JsTruthy(Member(call, "transcript")) ==>
              Fallback(call).transcript == JsString(Member(call, "transcript").value)
    ensures !JsTruthy(Member(call, "transcript")) && JsTruthy(MemberOf(Member(call, "artifact"), "transcript")) ==>
              Fallback(call).transcript == JsString(MemberOf(Member(call, "artifact"), "transcript").value)
    ensures !JsTruthy(Member(call, "transcript")) && !JsTruthy(MemberOf(Member(call, "artifact"), "transcript")) ==>
              Fallback(call).transcript == "No transcript available"
    ensures Fallback(call).summary.None? <==>
              !JsTruthy(Member(call, "summary")) && !JsTruthy(MemberOf(Member(call, "analysis"), "summary"))
  {
  }

  /** The page never shows a tool message: when `get_call` answered with a
      call, every message the list walks is a dict whose role is neither
      `tool_calls` nor `tool_call_result`, whichever array it came from. */
  lemma ShownMessagesUnblocked(reply: HttpReply)
    requires CallHistory.GetCall(reply).Ok?
    ensures var call := CallHistory.GetCall(reply).value;
            MessagesOf(call).Some? &&
            forall i :: 0 <= i < |MessagesOf(call).value| ==>
              MessagesOf(call).value[i].JObj? && !CallHistory.IsBlocked(MessagesOf(call).value[i])
  {
    CallHistory.GetCallEffect(reply);
    var call := CallHistory.GetCall(reply).value;
    var d := reply.body.value.fields;
    var top := Member(call, "messages");
    if !(top.Some? && top.value.JArr?) {
      var art := Get(d, "artifact");
      if art.Some? {
        CallHistory.FilterMessagesFieldEffect(art.value.fields);
      }
    }
  }

  /** The first truthy candidate of an `a || b || ... || null` chain. */
  function FirstTruthy(cands: seq<Option<Json>>): (r: Option<Json>)
    ensures r.None? <==> forall i :: 0 <= i < |cands| ==> !JsTruthy(cands[i])
    ensures r.Some? ==>
              (JsTruthy(r) && exists i :: 0 <= i < |cands| && cands[i] == r && forall k :: 0 <= k < i ==> !JsTruthy(cands[k]))
  {
    if cands == [] then None
    else if JsTruthy(cands[0]) then cands[0]
    else
      var r := FirstTruthy(cands[1..]);
      assert forall i :: 0 < i < |cands| ==> cands[i] == cands[1..][i - 1];
      if r.Some? then
        var j :| 0 <= j < |cands[1..]| && cands[1..][j] == r && forall k :: 0 <= k < j ==> !JsTruthy(cands[1..][k]);
        assert cands[j + 1] == r;
        assert forall k :: 0 <= k < j + 1 ==> !JsTruthy(cands[k]) by {
          forall k | 0 < k < j + 1 ensures !JsTruthy(cands[k]) {
            assert cands[k] == cands[1..][k - 1];
          }
        }
        r
      else r
  }

  /** The recording URL candidates, in priority order. */
  function RecordingCandidates(call: Json): seq<Option<Json>> {
    var artifact := Member(call, "artifact");
    var recording := MemberOf(artifact, "recording");
    [Member(call, "recordingUrl"), MemberOf(artifact, "recordingUrl"),
     MemberOf(recording, "stereoUrl"), MemberOf(MemberOf(recording, "mono"), "combinedUrl")]
  }

  /** The log URL candidates, in priority order. */
  function LogCandidates(call: Json): seq<Option<Json>> {
    [Member(call, "logUrl"), MemberOf(Member(call, "artifact"), "logUrl")]
  }

  /** The links row: hidden, or shown with each link's `href` (None: that
      link is hidden). */
  datatype LinksView = Hidden | Shown(recording: Option<string>, log: Option<string>)

  function Href(v: Option<Json>): Option<string> {
    if v.Some? then Some(JsString(v.value)) else None
  }

  /** `renderLinks(call)`; None when `call` is null. */
  function RenderLinks(call: Json): Option<LinksView> {
    if call.JNull? then None
    else
      var rec := FirstTruthy(RecordingCandidates(call));
      var log := FirstTruthy(LogCandidates(call));
      if rec.None? && log.None? then Some(Hidden) else Some(Shown(Href(rec), Href(log)))
  }

  /** The row is hidden exactly when no recording and no log URL candidate
      is there; each shown link takes the first candidate present, so a
      top-level `recordingUrl` always wins and `mono.combinedUrl` is used
      only when all three before it are missing. */
  lemma RenderLinksEffect(call: Json)
    requires !call.JNull?
    ensures RenderLinks(call) == Some(Hidden) <==>
              (forall i :: 0 <= i < 4 ==> !JsTruthy(RecordingCandidates(call)[i])) &&
              (forall i :: 0 <= i < 2 ==> !JsTruthy(LogCandidates(call)[i]))
    ensures JsTruthy(Member(call, "recordingUrl")) ==>
              RenderLinks(call).value.Shown? && RenderLinks(call).value.recording == Some(JsString(Member(call, "recordingUrl").value))
    ensures RenderLinks(call).value.Shown? && RenderLinks(call).value.recording.Some? ==>
              exists i :: 0 <= i < 4 && JsTruthy(RecordingCandidates(call)[i]) &&
                RenderLinks(call).value.recording == Some(JsString(RecordingCandidates(call)[i].value)) &&
                forall k :: 0 <= k < i ==> !JsTruthy(RecordingCandidates(call)[k])
  {
  }
}
