/**
 * The transcription client (transcription/assembly_ai.py): upload of a
 * local file or remote URL, the transcript request, and the polling loop.
 * Every HTTP reply is an input; the requests the client would send are
 * returned so that their order and content can be stated.
 */
module Transcription {
  import opened Wrappers
  import Text

  newtype byte = b: int | 0 <= b < 256

  const UploadUrl: string := "https://api.assemblyai.com/v2/upload"
  const TranscriptUrl: string := "https://api.assemblyai.com/v2/transcript"

  /** The default `chunk_size` of `read_file`: 5 MiB. */
  const ChunkSize: nat := 5242880

  /** A decoded JSON value, as far as the client looks into it. */
  datatype Json = JString(s: string) | JNull | JOther

  datatype HttpResponse = HttpResponse(statusCode: int, text: string, json: map<string, Json>)

  /** `json.get(key)`: None when the key is absent. */
  function Lookup(json: map<string, Json>, key: string): (v: Option<Json>)
    ensures v.Some? <==> key in json
    ensures v.Some? ==> v.value == json[key]
  {
    if key in json then Some(json[key]) else None
  }

  /** The fixed `transcript_request` payload. */
  datatype TranscriptRequest = TranscriptRequest(
    audioUrl: Json,
    autoChapters: bool,
    speakerLabels: bool,
    punctuate: bool,
    formatText: bool)

  datatype Verb = Get | Post

  datatype Body =
    | NoBody
    | RemoteStream(source: string)          // the downloaded response's raw stream
    | FileChunks(chunks: seq<seq<byte>>)    // what read_file yields
    | JsonPayload(request: TranscriptRequest)

  datatype HttpRequest = HttpRequest(verb: Verb, url: string, body: Body)

  /** The exceptions the client raises, with the detail each message carries. */
  datatype TranscriptionError =
    | DownloadFailed(statusCode: int)         // a download reply other than 200, with its status
    | UploadFailed(detail: string)            // an upload reply other than 200, with its text
    | RequestFailed(detail: string)           // a transcript-request reply other than 200, with its text
    | TranscriptionFailed(error: Option<Json>) // an `error` status, with the reported error if any
    | MissingKey(key: string)                 // KeyError from json()[key]
    | NotText(key: string)                    // a JSON value used as a string is not one

  // ---------------------------------------------------------------------
  // upload_file
  // ---------------------------------------------------------------------

  /** `filepath_or_url.startswith("http")`: the only test for a remote source. */
  predicate IsRemote(source: string): (r: bool)
    ensures r <==> 4 <= |source| && source[0] == 'h' && source[1] == 't' && source[2] == 't' && source[3] == 'p'
  {
    Text.StartsWith(source, "http")
  }

  /** The test is a plain, case-sensitive prefix test. */
  lemma DispatchExamples()
    ensures IsRemote("https://example.com/a.mp3")
    ensures IsRemote("httpdocs/talk.mp3")
    ensures !IsRemote("HTTP://example.com/a.mp3")
    ensures !IsRemote("/tmp/http.mp3")
    ensures !IsRemote("")
  {
    assert "HTTP://example.com/a.mp3"[..4][0] == 'H';
    assert "/tmp/http.mp3"[..4][0] == '/';
  }

  function Concat(chunks: seq<seq<byte>>): seq<byte> {
    if |chunks| == 0 then [] else chunks[0] + Concat(chunks[1..])
  }

  lemma {:induction false} ConcatAppend(chunks: seq<seq<byte>>, last: seq<byte>)
    ensures Concat(chunks + [last]) == Concat(chunks) + last
    decreases |chunks|
  {
    if |chunks| > 0 {
      assert (chunks + [last])[1..] == chunks[1..] + [last];
      ConcatAppend(chunks[1..], last);
    } else {
      assert [] + [last] == [last];
    }
  }

  /**
   * chunks splits file into non-empty pieces of at most size bytes, in
   * order; every piece but the last is full.
   */
  predicate IsChunking(file: seq<byte>, size: nat, chunks: seq<seq<byte>>) {
    && Concat(chunks) == file
    && (forall i | 0 <= i < |chunks| :: 0 < |chunks[i]| <= size)
    && (forall i | 0 <= i < |chunks| - 1 :: |chunks[i]| == size)
  }

  /**
   * The generator `read_file`: read chunkSize bytes at a time until a read
   * returns nothing. A read of 0 bytes returns nothing at once.
   */
  method ReadFile(file: seq<byte>, chunkSize: nat) returns (chunks: seq<seq<byte>>)
    ensures chunkSize == 0 ==> chunks == []
    ensures chunkSize > 0 ==> IsChunking(file, chunkSize, chunks)
  {
    chunks := [];
    var pos := 0;
    while true
      invariant 0 <= pos <= |file|
      invariant Concat(chunks) == file[..pos]
      invariant forall i | 0 <= i < |chunks| :: 0 < |chunks[i]| <= chunkSize
      invariant forall i | 0 <= i < |chunks| - 1 :: |chunks[i]| == chunkSize
      invariant |chunks| > 0 && |chunks[|chunks| - 1]| < chunkSize ==> pos == |file|
      invariant chunkSize == 0 ==> chunks == []
      decreases |file| - pos
    {
      var end := if pos + chunkSize <= |file| then pos + chunkSize else |file|;
      var data := file[pos..end];
      if |data| == 0 {
        break;
      }
      ConcatAppend(chunks, data);
      assert file[..end] == file[..pos] + data;
      chunks := chunks + [data];
      pos := end;
    }
    if chunkSize > 0 {
      assert file[..pos] == file;
    }
  }

  lemma {:induction false} ConcatNonEmpty(chunks: seq<seq<byte>>)
    requires forall i | 0 <= i < |chunks| :: 0 < |chunks[i]|
    ensures |chunks| > 0 ==> |Concat(chunks)| >= |chunks[0]| > 0
  {
  }

  /** The chunking of a file is unique, so the chunks read_file yields are determined by the file. */
  lemma {:induction false} ChunkingUnique(file: seq<byte>, size: nat, a: seq<seq<byte>>, b: seq<seq<byte>>)
    requires IsChunking(file, size, a) && IsChunking(file, size, b)
    ensures a == b
    decreases |a|
  {
    if |a| > 0 && |b| > 0 {
      ChunkTail(file, size, a);
      ChunkTail(file, size, b);
      if |a| == 1 || |b| == 1 {
        assert |a| == 1 && |b| == 1;
        assert a == [file] && b == [file];
      } else {
        assert a[0] == file[..size] == b[0];
        ChunkingUnique(file[size..], size, a[1..], b[1..]);
        assert a == [a[0]] + a[1..] && b == [b[0]] + b[1..];
      }
    } else if |a| > 0 {
      ConcatNonEmpty(a);
    } else if |b| > 0 {
      ConcatNonEmpty(b);
    }
  }

  /** The first chunk of a chunking: all of a short file, else the first full piece. */
  lemma ChunkTail(file: seq<byte>, size: nat, chunks: seq<seq<byte>>)
    requires IsChunking(file, size, chunks) && |chunks| > 0
    ensures |chunks| == 1 <==> |file| <= size
    ensures |chunks| == 1 ==> chunks[0] == file
    ensures |chunks| > 1 ==> chunks[0] == file[..size] && IsChunking(file[size..], size, chunks[1..])
  {
    var rest := chunks[1..];
    assert Concat(chunks) == chunks[0] + Concat(rest);
    assert forall i | 0 <= i < |rest| :: rest[i] == chunks[i + 1];
    ConcatNonEmpty(rest);
    if |chunks| == 1 {
      assert Concat(rest) == [];
    }
  }

  /** The local-file branch reads with the default chunk size: each piece is at most 5 MiB. */
  method ReadLocalFile(file: seq<byte>) returns (chunks: seq<seq<byte>>)
    ensures IsChunking(file, ChunkSize, chunks)
  {
    chunks := ReadFile(file, ChunkSize);
  }

  /** The status guard on the upload reply, then `json()['upload_url']`. */
  function UploadReply(reply: HttpResponse): (r: Result<Json, TranscriptionError>)
    ensures reply.statusCode != 200 ==> r == Failure(UploadFailed(reply.text))
    ensures reply.statusCode == 200 && "upload_url" !in reply.json ==> r == Failure(MissingKey("upload_url"))
    ensures r.Success? <==> reply.statusCode == 200 && "upload_url" in reply.json
    ensures r.Success? ==> r.value == reply.json["upload_url"]
  {
    if reply.statusCode != 200 then Failure(UploadFailed(reply.text))
    else if "upload_url" !in reply.json then Failure(MissingKey("upload_url"))
    else Success(reply.json["upload_url"])
  }

  /** What `upload_file` returns or raises, given the download and upload replies. */
  function UploadResult(source: string, download: HttpResponse, upload: HttpResponse): (r: Result<Json, TranscriptionError>)
    ensures IsRemote(source) && download.statusCode != 200 ==> r == Failure(DownloadFailed(download.statusCode))
    ensures !IsRemote(source) || download.statusCode == 200 ==> r == UploadReply(upload)
  {
    if IsRemote(source) && download.statusCode != 200 then Failure(DownloadFailed(download.statusCode))
    else UploadReply(upload)
  }

  /** The requests `upload_file` sends: a download then a streamed upload, or one chunked upload. */
  predicate UploadRequests(source: string, download: HttpResponse, file: seq<byte>, sent: seq<HttpRequest>) {
    if IsRemote(source) then
      sent == [HttpRequest(Get, source, NoBody)]
              + (if download.statusCode == 200 then [HttpRequest(Post, UploadUrl, RemoteStream(source))] else [])
    else
      |sent| == 1 && sent[0].verb == Post && sent[0].url == UploadUrl
      && sent[0].body.FileChunks? && IsChunking(file, ChunkSize, sent[0].body.chunks)
  }

  /**
   * `upload_file`: the remote branch downloads and forwards the stream, the
   * local branch uploads the file in chunks; a failed download stops
   * before any upload.
   */
  method UploadFile(source: string, download: HttpResponse, file: seq<byte>, upload: HttpResponse)
    returns (result: Result<Json, TranscriptionError>, sent: seq<HttpRequest>)
    ensures UploadRequests(source, download, file, sent)
    ensures result == UploadResult(source, download, upload)
  {
    if IsRemote(source) {
      sent := [HttpRequest(Get, source, NoBody)];
      if download.statusCode != 200 {
        return Failure(DownloadFailed(download.statusCode)), sent;
      }
      sent := sent + [HttpRequest(Post, UploadUrl, RemoteStream(source))];
    } else {
      var chunks := ReadLocalFile(file);
      sent := [HttpRequest(Post, UploadUrl, FileChunks(chunks))];
    }
    result := UploadReply(upload);
  }

  // ---------------------------------------------------------------------
  // transcribe_audio
  // ---------------------------------------------------------------------

  /** The payload for the upload: punctuation and formatting on, speaker labels and chapters off. */
  function NewTranscriptRequest(uploadUrl: Json): (request: TranscriptRequest)
    ensures request.audioUrl == uploadUrl
    ensures !request.autoChapters && !request.speakerLabels
    ensures request.punctuate && request.formatText
  {
    TranscriptRequest(uploadUrl, false, false, true, true)
  }

  /** The status guard on the transcript request's reply, then `json()['id']`. */
  function SubmitReply(reply: HttpResponse): (r: Result<string, TranscriptionError>)
    ensures reply.statusCode != 200 ==> r == Failure(RequestFailed(reply.text))
    ensures reply.statusCode == 200 && "id" !in reply.json ==> r == Failure(MissingKey("id"))
    ensures reply.statusCode == 200 && "id" in reply.json && !reply.json["id"].JString? ==> r == Failure(NotText("id"))
    ensures r.Success? <==> reply.statusCode == 200 && "id" in reply.json && reply.json["id"].JString?
    ensures r.Success? ==> r.value == reply.json["id"].s
  {
    if reply.statusCode != 200 then Failure(RequestFailed(reply.text))
    else if "id" !in reply.json then Failure(MissingKey("id"))
    else match reply.json["id"]
      case JString(id) => Success(id)
      case _ => Failure(NotText("id"))
  }

  /** `f"{TRANSCRIPT_URL}/{transcript_id}"`: the job id can be read back from the endpoint. */
  function PollingEndpoint(id: string): (endpoint: string)
    ensures Text.StartsWith(endpoint, TranscriptUrl + "/")
    ensures endpoint[|TranscriptUrl| + 1..] == id
  {
    TranscriptUrl + "/" + id
  }

  /**
   * One poll reply: None to sleep and poll again, otherwise the value
   * returned (`completed`: the text, default "", stripped) or the
   * exception raised (`error`: carrying the reported error; a missing
   * `status` key is a KeyError). The reply's status code is not checked.
   */
  function PollStep(reply: HttpResponse): (step: Option<Result<string, TranscriptionError>>)
    ensures step.None? <==> ("status" in reply.json
      && reply.json["status"] != JString("completed") && reply.json["status"] != JString("error"))
    ensures step == Some(Failure(TranscriptionFailed(Lookup(reply.json, "error")))) <==>
      ("status" in reply.json && reply.json["status"] == JString("error"))
    ensures "status" !in reply.json ==> step == Some(Failure(MissingKey("status")))
    ensures IsCompleted(reply) && "text" !in reply.json ==> step == Some(Success(""))
    ensures IsCompleted(reply) && "text" in reply.json ==>
      step == match reply.json["text"]
        case JString(t) => Some(Success(Text.Strip(t)))
        case _ => Some(Failure(NotText("text")))
    ensures step.Some? && step.value.Success? ==> Text.Strip(step.value.value) == step.value.value
  {
    if "status" !in reply.json then Some(Failure(MissingKey("status")))
    else if reply.json["status"] == JString("completed") then
      if "text" !in reply.json then Some(Success(""))
      else match reply.json["text"]
        case JString(t) =>
          Text.StripIdempotent(t);
          Some(Success(Text.Strip(t)))
        case _ => Some(Failure(NotText("text")))
    else if reply.json["status"] == JString("error") then
      Some(Failure(TranscriptionFailed(Lookup(reply.json, "error"))))
    else None
  }

  /** The reply reports the `completed` status. */
  predicate IsCompleted(reply: HttpResponse) {
    "status" in reply.json && reply.json["status"] == JString("completed")
  }

  predicate IsTerminal(reply: HttpResponse) {
    PollStep(reply).Some?
  }

  /** Index of the first terminal reply, or |replies| when none is. */
  function FirstTerminal(replies: seq<HttpResponse>): (k: nat)
    ensures k <= |replies|
    ensures forall i | 0 <= i < k :: !IsTerminal(replies[i])
    ensures k < |replies| ==> IsTerminal(replies[k])
    decreases |replies|
  {
    if |replies| == 0 || IsTerminal(replies[0]) then 0 else 1 + FirstTerminal(replies[1..])
  }

  /** Finished with what the loop returned or raised, or still polling when the replies run out. */
  datatype PollOutcome = Finished(result: Result<string, TranscriptionError>) | StillPolling

  /**
   * The `while True` polling loop over the service's successive replies:
   * it stops at the first terminal reply, after that many polls, and with
   * no terminal reply it is still polling after every reply given.
   */
  method Poll(replies: seq<HttpResponse>) returns (outcome: PollOutcome, polls: nat)
    ensures FirstTerminal(replies) < |replies| ==>
      polls == FirstTerminal(replies) + 1
      && outcome == Finished(PollStep(replies[FirstTerminal(replies)]).value)
    ensures (forall i | 0 <= i < |replies| :: !IsTerminal(replies[i])) ==>
      polls == |replies| && outcome == StillPolling
  {
    polls := 0;
    while polls < |replies|
      invariant polls <= |replies|
      invariant forall i | 0 <= i < polls :: !IsTerminal(replies[i])
    {
      var step := PollStep(replies[polls]);
      polls := polls + 1;
      if step.Some? {
        return Finished(step.value), polls;
      }
      // a pending status: wait, then poll again
    }
    outcome := StillPolling;
  }

  /** Replies after the first terminal one are never read. */
  lemma {:induction false} LaterRepliesIgnored(replies: seq<HttpResponse>, later: seq<HttpResponse>)
    requires FirstTerminal(replies) < |replies|
    ensures FirstTerminal(replies + later) == FirstTerminal(replies)
    decreases |replies|
  {
    if !IsTerminal(replies[0]) {
      assert (replies + later)[1..] == replies[1..] + later;
      LaterRepliesIgnored(replies[1..], later);
    }
  }

  /** There is no attempt bound: non-terminal replies only postpone the first terminal one. */
  lemma {:induction false} PendingRepliesPostpone(pending: seq<HttpResponse>, later: seq<HttpResponse>)
    requires forall i | 0 <= i < |pending| :: !IsTerminal(pending[i])
    ensures FirstTerminal(pending + later) == |pending| + FirstTerminal(later)
    decreases |pending|
  {
    if |pending| == 0 {
      assert pending + later == later;
    } else {
      assert (pending + later)[1..] == pending[1..] + later;
      PendingRepliesPostpone(pending[1..], later);
    }
  }

  /** A `completed` reply with a text field returns that text stripped. */
  lemma CompletedReply(reply: HttpResponse, t: string)
    requires "status" in reply.json && reply.json["status"] == JString("completed")
    requires "text" in reply.json && reply.json["text"] == JString(t)
    ensures PollStep(reply) == Some(Success(Text.Strip(t)))
  {
  }

  /** An `error` reply raises with the reported message. */
  lemma ErrorReply(reply: HttpResponse, message: string)
    requires "status" in reply.json && reply.json["status"] == JString("error")
    requires "error" in reply.json && reply.json["error"] == JString(message)
    ensures PollStep(reply) == Some(Failure(TranscriptionFailed(Some(JString(message)))))
  {
  }

  /** Two pending replies, then `completed` with text t: t stripped, after three polls. */
  lemma PollExampleCompleted(pending: HttpResponse, completed: HttpResponse, t: string)
    requires !IsTerminal(pending)
    requires "status" in completed.json && completed.json["status"] == JString("completed")
    requires "text" in completed.json && completed.json["text"] == JString(t)
    ensures FirstTerminal([pending, pending, completed]) == 2
    ensures PollStep([pending, pending, completed][2]) == Some(Success(Text.Strip(t)))
  {
    CompletedReply(completed, t);
    var replies := [pending, pending, completed];
    assert replies[1..] == [pending, completed];
    assert replies[1..][1..] == [completed];
    assert FirstTerminal([completed]) == 0;
    assert FirstTerminal([pending, completed]) == 1;
  }

  /**
   * What `transcribe_audio` returns or raises, given the replies: the
   * upload's error, the request's error, or the first terminal poll reply's
   * result; still polling when no reply is terminal. A returned transcript
   * is always stripped.
   */
  function TranscribeResult(
    source: string, download: HttpResponse, upload: HttpResponse,
    submit: HttpResponse, replies: seq<HttpResponse>): (outcome: PollOutcome)
    ensures outcome.Finished? && outcome.result.Success? ==>
      Text.Strip(outcome.result.value) == outcome.result.value
  {
    var up := UploadResult(source, download, upload);
    if up.Failure? then Finished(Failure(up.error))
    else
      var id := SubmitReply(submit);
      if id.Failure? then Finished(Failure(id.error))
      else
        var k := FirstTerminal(replies);
        if k < |replies| then Finished(PollStep(replies[k]).value) else StillPolling
  }

  /**
   * `transcribe_audio`: upload, request the transcript, then poll. Each
   * failing step raises before the next request is sent.
   */
  method TranscribeAudio(
    source: string, download: HttpResponse, file: seq<byte>, upload: HttpResponse,
    submit: HttpResponse, replies: seq<HttpResponse>)
    returns (outcome: PollOutcome, sent: seq<HttpRequest>)
    ensures outcome == TranscribeResult(source, download, upload, submit, replies)
    ensures var up := UploadResult(source, download, upload);
      up.Failure? ==> outcome == Finished(Failure(up.error)) && UploadRequests(source, download, file, sent)
    ensures var up := UploadResult(source, download, upload);
      up.Success? && SubmitReply(submit).Failure? ==>
        outcome == Finished(Failure(SubmitReply(submit).error))
        && |sent| >= 1 && UploadRequests(source, download, file, sent[..|sent| - 1])
        && sent[|sent| - 1] == HttpRequest(Post, TranscriptUrl, JsonPayload(NewTranscriptRequest(up.value)))
    ensures var up := UploadResult(source, download, upload);
      var k := FirstTerminal(replies);
      var n := if k < |replies| then k + 1 else |replies|;
      up.Success? && SubmitReply(submit).Success? ==>
        && outcome == (if k < |replies| then Finished(PollStep(replies[k]).value) else StillPolling)
        && |sent| >= n + 1
        && UploadRequests(source, download, file, sent[..|sent| - n - 1])
        && sent[|sent| - n - 1] == HttpRequest(Post, TranscriptUrl, JsonPayload(NewTranscriptRequest(up.value)))
        && forall i | |sent| - n <= i < |sent| ::
             sent[i] == HttpRequest(Get, PollingEndpoint(SubmitReply(submit).value), NoBody)
  {
    var up;
    up, sent := UploadFile(source, download, file, upload);
    if up.Failure? {
      return Finished(Failure(up.error)), sent;
    }
    var uploadSent := sent;
    var request := NewTranscriptRequest(up.value);
    sent := sent + [HttpRequest(Post, TranscriptUrl, JsonPayload(request))];
    assert sent[..|sent| - 1] == uploadSent;
    var id := SubmitReply(submit);
    if id.Failure? {
      return Finished(Failure(id.error)), sent;
    }
    var endpoint := PollingEndpoint(id.value);
    var polls;
    outcome, polls := Poll(replies);
    var withSubmit := sent;
    sent := sent + seq(polls, _ => HttpRequest(Get, endpoint, NoBody));
    assert sent[..|sent| - polls] == withSubmit;
    assert sent[..|sent| - polls - 1] == uploadSent;
  }
}
