/** The outbound requests the backend sends to the OCR service and to the
    Vapi API, recorded in the order they are sent. */
module Outbound {
  import opened Json

  datatype ChatMessage = ChatMessage(role: string, content: string)

  datatype KnowledgeBase = KnowledgeBase(provider: string, fileIds: seq<Json>)

  datatype ModelConfig = ModelConfig(
    provider: string, model: string, knowledgeBase: KnowledgeBase, messages: seq<ChatMessage>)

  /** The voice block; its two numbers are kept as the JSON text they are sent as. */
  datatype VoiceConfig = VoiceConfig(
    provider: string, voiceId: string, model: string, stability: string, similarityBoost: string)

  /** The JSON body of `POST /assistant`. */
  datatype AssistantPayload = AssistantPayload(
    name: string, firstMessage: string, model: ModelConfig, voice: VoiceConfig)

  datatype Request =
    | OcrPost(filename: string, contentType: string)   // POST to the OCR receipt endpoint
    | FilePost(name: string, content: string)          // POST /file (multipart text/plain)
    | AssistantPost(payload: AssistantPayload)         // POST /assistant
    | AssistantGet(assistantId: string)                // GET /assistant/{id}
    | PhoneGet(phoneId: string)                        // GET /phone-number/{id}
    | CallsGet(params: seq<(string, string)>)          // GET /call?params
    | CallGet(callId: string)                          // GET /call/{id}
    | AssistantDelete(assistantId: string)             // DELETE /assistant/{id}

  /** The number of file uploads in a sequence of requests. */
  function CountFilePosts(sent: seq<Request>): nat {
    if sent == [] then 0 else (if sent[0].FilePost? then 1 else 0) + CountFilePosts(sent[1..])
  }

  /** The number of OCR requests in a sequence of requests. */
  function CountOcrPosts(sent: seq<Request>): nat {
    if sent == [] then 0 else (if sent[0].OcrPost? then 1 else 0) + CountOcrPosts(sent[1..])
  }

  /** The number of assistant creations in a sequence of requests. */
  function CountAssistantPosts(sent: seq<Request>): nat {
    if sent == [] then 0 else (if sent[0].AssistantPost? then 1 else 0) + CountAssistantPosts(sent[1..])
  }

  lemma {:induction false} CountsAppend(a: seq<Request>, b: seq<Request>)
    ensures CountFilePosts(a + b) == CountFilePosts(a) + CountFilePosts(b)
    ensures CountOcrPosts(a + b) == CountOcrPosts(a) + CountOcrPosts(b)
    ensures CountAssistantPosts(a + b) == CountAssistantPosts(a) + CountAssistantPosts(b)
  {
    if a == [] {
      assert a + b == b;
    } else {
      assert (a + b)[0] == a[0] && (a + b)[1..] == a[1..] + b;
      CountsAppend(a[1..], b);
    }
  }
}
