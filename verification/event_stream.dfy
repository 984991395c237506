/** `stream_generator`: the server-sent-event framing of a streamed completion. Each upstream
    chunk is taken here as its JSON serialisation (`model_dump_json`). */
module EventStream {
  import opened Outcomes
  import opened Strings

  const ImEnd := "<|im_end|>"
  const EndOfText := "<|endoftext|>"
  const FramePrefix := "data: "
  const FrameSuffix := "\n\n"
  const DoneFrame := "data: [DONE]\n\n"

  /** The chunks the generator suppresses. */
  predicate IsSentinel(chunk: string) {
    chunk == ImEnd || chunk == EndOfText
  }

  /** One event frame carrying `payload`. */
  function Frame(payload: string): string {
    FramePrefix + payload + FrameSuffix
  }

  /** The chunks that are forwarded, in upstream order. */
  function Forwarded(chunks: seq<string>): (r: seq<string>)
    ensures |r| <= |chunks|
    ensures forall x :: x in r <==> x in chunks && !IsSentinel(x)
  {
    if |chunks| == 0 then []
    else
      var p := chunks[..|chunks| - 1];
      var c := chunks[|chunks| - 1];
      assert chunks == p + [c];
      Forwarded(p) + (if IsSentinel(c) then [] else [c])
  }

  /** One frame per forwarded chunk, in order. */
  function Frames(payloads: seq<string>): (r: seq<string>)
    ensures |r| == |payloads|
    ensures forall i :: 0 <= i < |payloads| ==> r[i] == Frame(payloads[i])
  {
    seq(|payloads|, i requires 0 <= i < |payloads| => Frame(payloads[i]))
  }

  lemma ForwardedStep(chunks: seq<string>, i: nat)
    requires i < |chunks|
    ensures Forwarded(chunks[..i + 1]) == Forwarded(chunks[..i]) + (if IsSentinel(chunks[i]) then [] else [chunks[i]])
  {
    assert chunks[..i + 1][..i] == chunks[..i];
  }

  lemma FramesAppend(payloads: seq<string>, p: string)
    ensures Frames(payloads + [p]) == Frames(payloads) + [Frame(p)]
  {
  }

  /** One pass of the generator's loop extends the frames of the chunks read so far. */
  lemma GeneratorStep(chunks: seq<string>, i: nat, frames: seq<string>)
    requires i < |chunks| && frames == Frames(Forwarded(chunks[..i]))
    ensures Frames(Forwarded(chunks[..i + 1])) == if IsSentinel(chunks[i]) then frames else frames + [Frame(chunks[i])]
  {
    ForwardedStep(chunks, i);
    if !IsSentinel(chunks[i]) {
      FramesAppend(Forwarded(chunks[..i]), chunks[i]);
    }
  }

  /** The generator: a frame per chunk that is not a sentinel, then the `[DONE]` frame. */
  method StreamGenerator(chunks: seq<string>) returns (frames: seq<string>)
    ensures frames == Frames(Forwarded(chunks)) + [DoneFrame]
  {
    frames := [];
    var i := 0;
    assert chunks[..0] == [];
    while i < |chunks|
      invariant 0 <= i <= |chunks|
      invariant frames == Frames(Forwarded(chunks[..i]))
    {
      var chunk := chunks[i];
      GeneratorStep(chunks, i, frames);
      if !IsSentinel(chunk) {
        frames := frames + [Frame(chunk)];
      }
      i := i + 1;
    }
    assert chunks[..|chunks|] == chunks;
    frames := frames + [DoneFrame];
  }

  /** Reads the payload back out of a frame. */
  function Unframe(frame: string): (r: Option<string>)
    ensures r.Some? ==> Frame(r.value) == frame
  {
    if |frame| >= 8 && StartsWith(frame, FramePrefix) && EndsWith(frame, FrameSuffix)
    then Some(frame[6..|frame| - 2])
    else None
  }

  lemma UnframeFrame(payload: string)
    ensures Unframe(Frame(payload)) == Some(payload)
  {
    var f := Frame(payload);
    assert f[..6] == FramePrefix;
    assert f[|f| - 2..] == FrameSuffix;
    assert f[6..|f| - 2] == payload;
  }

  /** A client reading the stream gets every forwarded chunk back, in order, and then the
      `[DONE]` marker as the last event. */
  lemma StreamRoundTrip(chunks: seq<string>, frames: seq<string>)
    requires frames == Frames(Forwarded(chunks)) + [DoneFrame]
    ensures |frames| == |Forwarded(chunks)| + 1
    ensures forall i :: 0 <= i < |Forwarded(chunks)| ==> Unframe(frames[i]) == Some(Forwarded(chunks)[i])
    ensures Unframe(frames[|frames| - 1]) == Some("[DONE]")
  {
    forall i | 0 <= i < |Forwarded(chunks)|
      ensures Unframe(frames[i]) == Some(Forwarded(chunks)[i])
    {
      UnframeFrame(Forwarded(chunks)[i]);
    }
    UnframeFrame("[DONE]");
    assert Frame("[DONE]") == DoneFrame;
  }

  /** Chunks `[a, "<|im_end|>", b]` give the frames of `a` and `b` and then `[DONE]`. */
  lemma SentinelSuppressedExample(a: string, b: string)
    requires !IsSentinel(a) && !IsSentinel(b)
    ensures Frames(Forwarded([a, ImEnd, b])) + [DoneFrame] == [Frame(a), Frame(b), DoneFrame]
  {
    var s := [a, ImEnd, b];
    assert s[..2][..1] == [a];
    assert Forwarded([a]) == [a];
    assert s[..2] == [a, ImEnd];
    assert Forwarded(s[..2]) == [a];
    assert Forwarded(s) == [a, b];
  }

  /** `model_dump_json` of a pydantic model serialises an object, so it starts with `{`. */
  predicate IsJsonObject(s: string) {
    |s| > 0 && s[0] == '{'
  }

  /** Neither sentinel is a JSON object. */
  lemma SentinelNotJson(s: string)
    requires IsJsonObject(s)
    ensures !IsSentinel(s)
  {
    assert ImEnd[0] == '<' && EndOfText[0] == '<';
  }

  /** As written the filter compares whole serialisations with the sentinels, and a
      serialisation never is one: every chunk is forwarded, the end tokens included. */
  lemma {:induction false} SentinelFilterNeverFires(chunks: seq<string>)
    requires forall i :: 0 <= i < |chunks| ==> IsJsonObject(chunks[i])
    ensures Forwarded(chunks) == chunks
  {
    if |chunks| > 0 {
      var p := chunks[..|chunks| - 1];
      SentinelFilterNeverFires(p);
      SentinelNotJson(chunks[|chunks| - 1]);
      assert chunks == p + [chunks[|chunks| - 1]];
    }
  }

  /** A streamed chunk: the generated text it carries and its JSON serialisation. */
  datatype Chunk = Chunk(content: string, json: string)

  /** The chunks whose text is not an end token, in upstream order. */
  function Kept(chunks: seq<Chunk>): (r: seq<Chunk>)
    ensures |r| <= |chunks|
    ensures forall c :: c in r <==> c in chunks && !IsSentinel(c.content)
  {
    if |chunks| == 0 then []
    else
      var p := chunks[..|chunks| - 1];
      var c := chunks[|chunks| - 1];
      assert chunks == p + [c];
      Kept(p) + (if IsSentinel(c.content) then [] else [c])
  }

  /** The serialisations of `chunks`. */
  function Serialised(chunks: seq<Chunk>): (r: seq<string>)
    ensures |r| == |chunks|
    ensures forall i :: 0 <= i < |chunks| ==> r[i] == chunks[i].json
  {
    seq(|chunks|, i requires 0 <= i < |chunks| => chunks[i].json)
  }

  /** A chunk whose text is an end token still reaches the client as written. */
  lemma EndTokenForwardedAsWritten(c: Chunk)
    requires IsSentinel(c.content) && IsJsonObject(c.json)
    ensures Forwarded(Serialised([c])) == [c.json]
  {
    SentinelFilterNeverFires(Serialised([c]));
  }

  lemma KeptStep(chunks: seq<Chunk>, i: nat)
    requires i < |chunks|
    ensures Kept(chunks[..i + 1]) == Kept(chunks[..i]) + (if IsSentinel(chunks[i].content) then [] else [chunks[i]])
  {
    assert chunks[..i + 1][..i] == chunks[..i];
  }

  lemma SerialisedAppend(chunks: seq<Chunk>, c: Chunk)
    ensures Serialised(chunks + [c]) == Serialised(chunks) + [c.json]
  {
  }

  /** One pass of the loop of `StreamGeneratorByContent`. */
  lemma ByContentStep(chunks: seq<Chunk>, i: nat, frames: seq<string>)
    requires i < |chunks| && frames == Frames(Serialised(Kept(chunks[..i])))
    ensures Frames(Serialised(Kept(chunks[..i + 1]))) ==
            if IsSentinel(chunks[i].content) then frames else frames + [Frame(chunks[i].json)]
  {
    KeptStep(chunks, i);
    if !IsSentinel(chunks[i].content) {
      SerialisedAppend(Kept(chunks[..i]), chunks[i]);
      FramesAppend(Serialised(Kept(chunks[..i])), chunks[i].json);
    }
  }

  /** The generator with the end-token test on each chunk's text, as the filter intends: a
      frame per chunk that does not carry an end token, then the `[DONE]` frame. */
  method StreamGeneratorByContent(chunks: seq<Chunk>) returns (frames: seq<string>)
    ensures frames == Frames(Serialised(Kept(chunks))) + [DoneFrame]
  {
    frames := [];
    var i := 0;
    assert chunks[..0] == [];
    while i < |chunks|
      invariant 0 <= i <= |chunks|
      invariant frames == Frames(Serialised(Kept(chunks[..i])))
    {
      var c := chunks[i];
      ByContentStep(chunks, i, frames);
      if !IsSentinel(c.content) {
        frames := frames + [Frame(c.json)];
      }
      i := i + 1;
    }
    assert chunks[..|chunks|] == chunks;
    frames := frames + [DoneFrame];
  }

  /** With the test on the text, no frame before `[DONE]` comes from an end-token chunk, and
      every other chunk is framed. */
  lemma ByContentDropsEndTokens(chunks: seq<Chunk>, frames: seq<string>)
    requires frames == Frames(Serialised(Kept(chunks))) + [DoneFrame]
    ensures |frames| == |Kept(chunks)| + 1
    ensures forall i :: 0 <= i < |frames| - 1 ==>
              !IsSentinel(Kept(chunks)[i].content) && Unframe(frames[i]) == Some(Kept(chunks)[i].json)
    ensures forall c :: c in chunks && !IsSentinel(c.content) ==> c in Kept(chunks)
  {
    var k := Kept(chunks);
    forall i | 0 <= i < |frames| - 1
      ensures !IsSentinel(k[i].content) && Unframe(frames[i]) == Some(k[i].json)
    {
      assert k[i] in k;
      UnframeFrame(k[i].json);
    }
  }
}
