/** The embedding client: one HTTP request per text, no retry, and a batch loop that
    replaces blank or "none" texts by the fallback literal before sending them. The HTTP
    endpoint is a parameter `post` from prompt to reply; vectors are opaque. */
module Embeddings {
  import opened Wrappers
  import opened Text

  type Embedding = seq<real>

  /** What the embeddings endpoint answers: status code, vector, body text. */
  datatype EmbedReply = EmbedReply(status: int, embedding: Embedding, body: string)

  const NoInformation: string := "sin información"

  /** `get_embedding`: a non-200 reply raises with the body in the message. */
  function GetEmbedding(post: string -> EmbedReply, text: string): (r: Result<Embedding>)
    ensures r.Success? <==> post(text).status == 200
    ensures r.Success? ==> r.value == post(text).embedding
    ensures r.Failure? ==> r.error == "Error de Ollama: " + post(text).body
  {
    var reply := post(text);
    if reply.status != 200 then Failure("Error de Ollama: " + reply.body) else Success(reply.embedding)
  }

  /** Texts the batch loop will not send as they are: empty, blank (`strip()` leaves
      nothing, see `StripEmptyIff`) or "none" in any letter case. */
  predicate Unsendable(text: string)
  {
    text == "" || AllSpace(text) || Lower(text) == "none"
  }

  /** The text actually sent for `text`. */
  function Sanitize(text: string): string
  {
    if Unsendable(text) then NoInformation else text
  }

  /** What is sent is never blank and never "none"; a sendable text goes out unchanged,
      and sanitising twice is sanitising once. */
  lemma SanitizeSpec(text: string)
    ensures Unsendable(text) <==> text == "" || Strip(text) == "" || Lower(text) == "none"
    ensures Strip(Sanitize(text)) != "" && Lower(Sanitize(text)) != "none"
    ensures !Unsendable(text) ==> Sanitize(text) == text
    ensures Unsendable(text) ==> Sanitize(text) == NoInformation
    ensures Sanitize(Sanitize(text)) == Sanitize(text)
  {
    var s := NoInformation;
    assert !IsSpace(s[0]);
    StripEmptyIff(s);
    assert Lower(s)[0] == 's';
    StripEmptyIff(text);
  }

  /** The embedding of `text` exists and is `e`. */
  predicate EmbedsTo(post: string -> EmbedReply, text: string, e: Embedding)
  {
    post(Sanitize(text)).status == 200 && post(Sanitize(text)).embedding == e
  }

  /** `get_embeddings_batch`: one request per text in order; the first failing request
      ends the batch (the exception propagates). `sent` is the list of texts sent. */
  method GetEmbeddingsBatch(texts: seq<string>, post: string -> EmbedReply)
    returns (r: Result<seq<Embedding>>, sent: seq<string>)
    ensures r.Success? <==> forall i :: 0 <= i < |texts| ==> post(Sanitize(texts[i])).status == 200
    ensures r.Success? ==> |r.value| == |texts|
    ensures r.Success? ==> forall i :: 0 <= i < |texts| ==> EmbedsTo(post, texts[i], r.value[i])
    ensures r.Success? ==> |sent| == |texts|
    ensures r.Failure? ==> 1 <= |sent| <= |texts| && post(sent[|sent| - 1]).status != 200
    ensures r.Failure? ==> forall i :: 0 <= i < |sent| - 1 ==> post(sent[i]).status == 200
    ensures |sent| <= |texts| && forall i :: 0 <= i < |sent| ==> sent[i] == Sanitize(texts[i])
  {
    var embeddings: seq<Embedding> := [];
    sent := [];
    var i := 0;
    while i < |texts|
      invariant 0 <= i <= |texts|
      invariant |embeddings| == i && |sent| == i
      invariant BatchSoFar(texts, post, sent, embeddings)
    {
      var text := Sanitize(texts[i]);
      var e := GetEmbedding(post, text);
      BatchStep(texts, post, sent, embeddings, e);
      sent := sent + [text];
      if e.Failure? {
        r := Failure(e.error);
        return;
      }
      embeddings := embeddings + [e.value];
      i := i + 1;
    }
    r := Success(embeddings);
  }

  /** The first texts have been sent, sanitised, and each has its embedding. */
  predicate BatchSoFar(texts: seq<string>, post: string -> EmbedReply, sent: seq<string>, embeddings: seq<Embedding>)
  {
    && |sent| <= |texts| && |embeddings| <= |sent|
    && (forall k :: 0 <= k < |sent| ==> sent[k] == Sanitize(texts[k]))
    && (forall k :: 0 <= k < |embeddings| ==> EmbedsTo(post, texts[k], embeddings[k]))
  }

  /** Sending the next text keeps the batch's invariant, and a failed request is a text
      without an embedding. */
  lemma BatchStep(texts: seq<string>, post: string -> EmbedReply, sent: seq<string>, embeddings: seq<Embedding>,
                  e: Result<Embedding>)
    requires |sent| == |embeddings| < |texts| && BatchSoFar(texts, post, sent, embeddings)
    requires e == GetEmbedding(post, Sanitize(texts[|sent|]))
    ensures BatchSoFar(texts, post, sent + [Sanitize(texts[|sent|])], embeddings)
    ensures e.Success? ==> BatchSoFar(texts, post, sent + [Sanitize(texts[|sent|])], embeddings + [e.value])
    ensures e.Failure? ==> post(Sanitize(texts[|sent|])).status != 200
  {
  }
}
