/**
 * The data logic of the image step's client handlers in components/steps/image-generator.tsx:
 * batch generation, regeneration of one segment's image, and attaching a voice-over to one
 * segment. The session data is reduced to the script and the `generatedImages` state; the
 * responses of the `fetch` calls are inputs, with `None` where the call or `response.json()`
 * throws.
 */
module ImageGeneratorClient {
  import opened Wrappers
  import opened ScriptModel
  import opened GenerateImages

  const VoiceId: string := "vi-VN-HoaiMyNeural"

  datatype ClientState = ClientState(script: Script, generatedImages: seq<ImageRecord>)

  /**
   * `handleGenerateImages`: on a `success` reply the script and the generated-image list become
   * the reply's; on any other outcome both stay as they were.
   */
  function ApplyGeneratedImages(state: ClientState, reply: Option<ImagesResponse>): (next: ClientState)
    ensures reply.Some? && reply.value.ImagesOk? ==>
      next.script == reply.value.script && next.generatedImages == reply.value.imageResults
    ensures !(reply.Some? && reply.value.ImagesOk?) ==> next == state
  {
    match reply
    case Some(ImagesOk(script, results)) => ClientState(script, results)
    case _ => state
  }

  /**
   * The batch round trip: the client sends its script, and a successful reply leaves a script
   * with the same title and number of segments, where every listed image is attached to the
   * segment its index names.
   */
  lemma {:induction false} BatchRoundTrip(c: Config, state: ClientState)
    requires Valid(c)
    ensures var reply := Respond(c, Some(state.script));
      var next := ApplyGeneratedImages(state, Some(reply));
      && (reply.ImagesOk? ==>
            && next.script.title == state.script.title
            && |next.script.segments| == |state.script.segments|
            && forall k :: 0 <= k < |next.generatedImages| ==>
                 var record := next.generatedImages[k];
                 && record.index < |next.script.segments|
                 && next.script.segments[record.index].imagePath == Some(record.imagePath)
                 && next.script.segments[record.index].directImageUrl == Some(record.directImageUrl))
      && (reply.ImagesFailed? ==> next == state)
  {
    var segs := state.script.segments;
    BatchAgainstReference(c, segs);
    RecordsCarryUrl(Settlements(c, segs), |segs|);
  }

  /**
   * The body of the regeneration request: `None` when there is no segment at `index` (nothing is
   * sent), otherwise the script with its segments replaced by a copy of the target segment whose
   * `prompt` falls back to the narration.
   */
  function RegenerateRequest(script: Script, index: int): (r: Option<Script>)
    ensures r.Some? <==> 0 <= index < |script.segments|
    ensures r.Some? ==>
      var segment := script.segments[index];
      && r.value.title == script.title
      && |r.value.segments| == 1
      && r.value.segments[0].(prompt := segment.prompt) == segment
      && (Truthy(segment.prompt) ==> r.value.segments[0].prompt == segment.prompt)
      && (!Truthy(segment.prompt) ==> r.value.segments[0].prompt == Some(segment.script))
  {
    if 0 <= index < |script.segments| then
      var segment := script.segments[index];
      Some(script.(segments := [segment.(prompt := Some(OrElse(segment.prompt, segment.script)))]))
    else None
  }

  /** `data.success && data.image_results?.[0]`: the reply the client accepts. */
  predicate Regenerated(reply: Option<ImagesResponse>)
  {
    reply.Some? && reply.value.ImagesOk? && |reply.value.imageResults| > 0
  }

  /**
   * `handleRegenerateImage(index)`: build the request, and on an accepted reply copy the segment
   * list and overwrite slot `index` with the target segment carrying the first record's paths.
   */
  method RegenerateImage(state: ClientState, index: int, reply: Option<ImagesResponse>)
    returns (next: ClientState, sent: Option<Script>)
    ensures sent == RegenerateRequest(state.script, index)
    ensures sent.None? || !Regenerated(reply) ==> next == state
    ensures next.generatedImages == state.generatedImages && next.script.title == state.script.title
    ensures |next.script.segments| == |state.script.segments|
    ensures forall j :: 0 <= j < |state.script.segments| && j != index ==>
      next.script.segments[j] == state.script.segments[j]
    ensures sent.Some? && Regenerated(reply) ==>
      var record := reply.value.imageResults[0];
      next.script.segments[index] == state.script.segments[index].(
        imagePath := Some(record.imagePath), directImageUrl := Some(record.directImageUrl))
  {
    next := state;
    sent := RegenerateRequest(state.script, index);
    if sent.None? || !Regenerated(reply) {
      return;
    }
    var segments := state.script.segments;
    var segment := segments[index];
    var record := reply.value.imageResults[0];
    var copy := new Segment[|segments|](k requires 0 <= k < |segments| => segments[k]);
    copy[index] := segment.(imagePath := Some(record.imagePath), directImageUrl := Some(record.directImageUrl));
    next := state.(script := state.script.(segments := copy[..]));
  }

  /**
   * The server never reads `prompt`: for the one-segment request, the job runs on the target's
   * `image_description`, so the success flag and the `image_results` of the regeneration reply
   * are those for the segment as it stands (the echoed script still carries the filled-in
   * `prompt`).
   */
  lemma {:induction false} RegenerationIgnoresPrompt(c: Config, script: Script, index: int)
    requires Valid(c) && 0 <= index < |script.segments|
    ensures var sent := RegenerateRequest(script, index).value;
      var plain := script.(segments := [script.segments[index]]);
      && Respond(c, Some(sent)).ImagesOk? == Respond(c, Some(plain)).ImagesOk?
      && (Respond(c, Some(sent)).ImagesOk? ==>
            Respond(c, Some(sent)).imageResults == Respond(c, Some(plain)).imageResults)
  {
    var sent := RegenerateRequest(script, index).value.segments;
    var plain := [script.segments[index]];
    assert sent[0].imageDescription == plain[0].imageDescription;
    BatchAgainstReference(c, sent);
    BatchAgainstReference(c, plain);
    assert Settlements(c, sent) == Settlements(c, plain);
  }

  /**
   * Regeneration end to end: the server's reply to the request is accepted exactly when the job
   * run on the target's `image_description` succeeds, and its first record then holds that job's
   * url, which `RegenerateImage` writes into slot `index`.
   */
  lemma {:induction false} RegenerationEndToEnd(c: Config, state: ClientState, index: int)
    requires Valid(c) && 0 <= index < |state.script.segments|
    ensures var segment := state.script.segments[index];
      var job := Job(c, 0, segment.imageDescription);
      var reply := Respond(c, RegenerateRequest(state.script, index));
      && (Succeeded(job) <==> Regenerated(Some(reply)))
      && (Succeeded(job) ==> reply.imageResults[0] == ImageRecord(0, job.result.url, job.result.url))
  {
    var sent := RegenerateRequest(state.script, index).value;
    BatchAgainstReference(c, sent.segments);
    RecordExactlyOnSuccess(Settlements(c, sent.segments), 1);
    RecordsCarryUrl(Settlements(c, sent.segments), 1);
    RecordsBounded(Settlements(c, sent.segments), 1);
  }

  /** The body `handleGenerateVoice` posts for a segment. */
  datatype VoiceRequest = VoiceRequest(text: string, voiceId: string)

  /** `{ success, audioUrl }` of the voice route. */
  datatype VoiceReply = VoiceReply(success: bool, audioUrl: Option<string>)

  predicate VoiceAccepted(reply: Option<VoiceReply>)
  {
    reply.Some? && reply.value.success && Truthy(reply.value.audioUrl)
  }

  /**
   * The list update of `handleGenerateVoice(segment)`, with the segment named by its position:
   * on an accepted reply the list is mapped, setting `audio_path` on that segment alone.
   */
  function AttachVoice(state: ClientState, index: nat, reply: Option<VoiceReply>): (next: ClientState)
    ensures next.generatedImages == state.generatedImages && next.script.title == state.script.title
    ensures |next.script.segments| == |state.script.segments|
    ensures forall j :: 0 <= j < |state.script.segments| && j != index ==>
      next.script.segments[j] == state.script.segments[j]
    ensures !VoiceAccepted(reply) ==> next == state
    ensures VoiceAccepted(reply) && index < |state.script.segments| ==>
      && next.script.segments[index].audioPath == reply.value.audioUrl
      && next.script.segments[index].(audioPath := state.script.segments[index].audioPath)
         == state.script.segments[index]
  {
    if !VoiceAccepted(reply) then state
    else
      var segments := state.script.segments;
      var mapped := seq(|segments|, j requires 0 <= j < |segments| =>
        if j == index then segments[j].(audioPath := reply.value.audioUrl) else segments[j]);
      state.(script := state.script.(segments := mapped))
  }

  /** What one `handleGenerateVoice` call sends and the state it leaves. */
  datatype VoiceStep = VoiceStep(sent: VoiceRequest, next: ClientState)

  /**
   * `handleGenerateVoice(segment)` for the segment at `index`: it posts the segment's narration
   * with the fixed voice, and an accepted reply's audio lands on the segment whose narration was
   * sent, which keeps that narration.
   */
  function GenerateVoice(state: ClientState, index: nat, reply: Option<VoiceReply>): (step: VoiceStep)
    requires index < |state.script.segments|
    ensures step.sent == VoiceRequest(state.script.segments[index].script, VoiceId)
    ensures step.next == AttachVoice(state, index, reply)
    ensures VoiceAccepted(reply) ==>
      && step.next.script.segments[index].audioPath == reply.value.audioUrl
      && step.next.script.segments[index].script == step.sent.text
  {
    VoiceStep(VoiceRequest(state.script.segments[index].script, VoiceId), AttachVoice(state, index, reply))
  }

  /** Voice-overs attached to two different segments do not interfere. */
  lemma {:induction false} VoiceAttachCommutes(state: ClientState, i: nat, j: nat, ri: Option<VoiceReply>, rj: Option<VoiceReply>)
    requires i != j
    ensures AttachVoice(AttachVoice(state, i, ri), j, rj) == AttachVoice(AttachVoice(state, j, rj), i, ri)
  {
    var a := AttachVoice(AttachVoice(state, i, ri), j, rj);
    var b := AttachVoice(AttachVoice(state, j, rj), i, ri);
    assert a.script.segments == b.script.segments;
  }

  /** A second accepted voice-over for the same segment replaces the first. */
  lemma {:induction false} VoiceAttachLastWins(state: ClientState, i: nat, r1: Option<VoiceReply>, r2: Option<VoiceReply>)
    requires VoiceAccepted(r2)
    ensures AttachVoice(AttachVoice(state, i, r1), i, r2) == AttachVoice(state, i, r2)
  {
    var a := AttachVoice(AttachVoice(state, i, r1), i, r2);
    var b := AttachVoice(state, i, r2);
    assert a.script.segments == b.script.segments;
  }
}
