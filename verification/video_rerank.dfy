/** `OpeaVideoReranking.invoke`: picks the most voted video of a multimodal search result and
    describes the segment to play. The file-server endpoint and the chunk duration, read from
    the environment by the service, are parameters here. */
module VideoRerank {
  import opened Outcomes
  import opened Seqs
  import opened Strings
  import opened VoteTally
  import opened VideoName

  /** One metadata entry of the search result: the video it refers to and the segment start. */
  datatype VideoMeta = VideoMeta(video: string, timestamp: real)

  /** `SearchedMultimodalDoc`: the query, the hits' metadata in search order, and the cutoff. */
  datatype SearchedMultimodalDoc = SearchedMultimodalDoc(initialQuery: string, metadata: seq<VideoMeta>, topN: int)

  /** `LVMVideoDoc`: the segment handed to the video language model. */
  datatype LvmVideoDoc = LvmVideoDoc(videoUrl: string, prompt: string, chunkStart: real, chunkDuration: real, maxNewTokens: int)

  /** The `HTTPException` raised by `invoke`. */
  datatype HttpError = HttpError(statusCode: int, detail: string)

  const DefaultFileServerEndpoint := "http://0.0.0.0:6005"

  /** `os.getenv("FILE_SERVER_ENDPOINT") or "http://0.0.0.0:6005"`: an unset or empty
      setting falls back to the default, so the endpoint is never empty. */
  function FileServerEndpoint(setting: Option<string>): (e: string)
    ensures e != ""
    ensures setting.Some? && setting.value != "" ==> e == setting.value
    ensures e != DefaultFileServerEndpoint ==> setting == Some(e)
  {
    if setting.Some? && setting.value != "" then setting.value else DefaultFileServerEndpoint
  }
  const MaxNewTokens := 512
  const UnexpectedErrorDetail := "An unexpected error occurred."

  /** `[meta["video"] for meta in input.metadata]`. */
  function VideoNames(metadata: seq<VideoMeta>): (names: seq<string>)
    ensures |names| == |metadata|
    ensures forall i :: 0 <= i < |metadata| ==> names[i] == metadata[i].video
  {
    seq(|metadata|, i requires 0 <= i < |metadata| => metadata[i].video)
  }

  /** `find_timestamp_from_video`: the timestamp of the first entry for `video`, or None. */
  function FindTimestamp(metadata: seq<VideoMeta>, video: string): (r: Option<real>)
    ensures r.None? <==> forall i :: 0 <= i < |metadata| ==> metadata[i].video != video
    ensures r.Some? ==> exists i :: 0 <= i < |metadata| && metadata[i].video == video &&
                                    metadata[i].timestamp == r.value &&
                                    forall j :: 0 <= j < i ==> metadata[j].video != video
  {
    if |metadata| == 0 then None
    else if metadata[0].video == video then Some(metadata[0].timestamp)
    else
      var r := FindTimestamp(metadata[1..], video);
      assert forall i :: 1 <= i < |metadata| ==> metadata[i] == metadata[1..][i - 1];
      r
  }

  /** `invoke`: the most voted video among the first `top_n` ranked names, its first
      timestamp, its canonical file name under the file server; a 400 for a bad extension and
      a 500 for anything else that goes wrong (here: no name to pick). */
  function Invoke(input: SearchedMultimodalDoc, fileServerEndpoint: string, chunkDuration: real): (r: Result<LvmVideoDoc, HttpError>)
    // a ValueError becomes a 400 with its message, anything else the generic 500
    ensures r.Failure? ==> (r.error.statusCode == 400 && StartsWith(r.error.detail, "Invalid file extension"))
                           || r.error == HttpError(500, UnexpectedErrorDetail)
    // an answer points at an `.mp4` file under the file server and plays it for the query
    ensures r.Success? ==> && StartsWith(r.value.videoUrl, RStrip(fileServerEndpoint, '/') + "/")
                           && EndsWith(r.value.videoUrl, ".mp4")
                           && r.value.prompt == input.initialQuery
                           && r.value.chunkDuration == chunkDuration
                           && r.value.maxNewTokens == MaxNewTokens
  {
    var names := VideoNames(input.metadata);
    var top := GetTopDoc(input.topN, Some(names)).value;
    if |top| == 0 then Failure(HttpError(500, UnexpectedErrorDetail))
    else
      var winner := top[0];
      assert winner in names;
      var timestamp := FindTimestamp(input.metadata, winner);
      match FormatVideoName(winner)
      case Failure(message) => Failure(HttpError(400, message))
      case Success(fileName) =>
        var base := RStrip(fileServerEndpoint, '/') + "/";
        ConcatEnds(base, fileName, ".mp4");
        Success(LvmVideoDoc(
          base + fileName,
          input.initialQuery,
          timestamp.value,
          chunkDuration,
          MaxNewTokens))
  }

  /** The name `invoke` picks: the first of the top `top_n` names, if there is one. */
  function Winner(input: SearchedMultimodalDoc): Option<string> {
    var top := GetTopDoc(input.topN, Some(VideoNames(input.metadata))).value;
    if |top| == 0 then None else Some(top[0])
  }

  /** The winner has the most votes of all videos in the metadata, and among the videos with
      as many votes it appears first. */
  lemma WinnerIsMostVoted(input: SearchedMultimodalDoc)
    requires Winner(input).Some?
    ensures var names := VideoNames(input.metadata);
            var w := Winner(input).value;
            && w in names
            && (forall y :: y in names ==> Count(names, w) >= Count(names, y))
            && (forall y :: y in names && y != w && Count(names, y) == Count(names, w) ==>
                  FirstIndex(names, w) < FirstIndex(names, y))
  {
    var names := VideoNames(input.metadata);
    var top := GetTopDoc(input.topN, Some(names)).value;
    TopDocsShape(input.topN, names);
    TopDocsAreBest(input.topN, names);
    TopDocsOrdered(input.topN, names);
    var w := top[0];
    forall y | y in names && y != w && Count(names, y) == Count(names, w)
      ensures FirstIndex(names, w) < FirstIndex(names, y)
    {
      if y in top {
        var j := FirstIndex(top, y);
        assert 0 < j;
      } else {
        assert Before(names, w, y);
      }
    }
  }

  /** A successful answer describes the winner: its canonical file under the file server
      (trailing slashes of the endpoint dropped), the query as prompt, the timestamp of the
      winner's first metadata entry, the configured duration and 512 new tokens. */
  lemma InvokeDescribesWinner(input: SearchedMultimodalDoc, fileServerEndpoint: string, chunkDuration: real)
    requires Invoke(input, fileServerEndpoint, chunkDuration).Success?
    ensures var doc := Invoke(input, fileServerEndpoint, chunkDuration).value;
            && Winner(input).Some?
            && var w := Winner(input).value;
            && FormatVideoName(w).Success?
            && doc.videoUrl == RStrip(fileServerEndpoint, '/') + "/" + FormatVideoName(w).value
            && doc.prompt == input.initialQuery
            && doc.chunkDuration == chunkDuration
            && doc.maxNewTokens == 512
            && exists i :: 0 <= i < |input.metadata| && input.metadata[i].video == w &&
                           input.metadata[i].timestamp == doc.chunkStart &&
                           forall j :: 0 <= j < i ==> input.metadata[j].video != w
  {
    var names := VideoNames(input.metadata);
    var top := GetTopDoc(input.topN, Some(names)).value;
    var w := top[0];
    assert w in names;
    var ts := FindTimestamp(input.metadata, w);
    var f := FormatVideoName(w);
    assert f.Success?;
    var doc := LvmVideoDoc(RStrip(fileServerEndpoint, '/') + "/" + f.value, input.initialQuery, ts.value, chunkDuration, MaxNewTokens);
    assert Invoke(input, fileServerEndpoint, chunkDuration) == Success(doc);
  }

  /** The only 500 answer is the one for an empty top list. */
  lemma Invoke500IffNoWinner(input: SearchedMultimodalDoc, fileServerEndpoint: string, chunkDuration: real)
    ensures Invoke(input, fileServerEndpoint, chunkDuration) == Failure(HttpError(500, UnexpectedErrorDetail)) <==>
            Winner(input).None?
  {
  }

  /** The top list is empty exactly when `top_n` is 0, there are no names, or a negative
      `top_n` drops them all. */
  lemma NoWinnerIff(input: SearchedMultimodalDoc)
    ensures var names := VideoNames(input.metadata);
            Winner(input).None? <==>
            (|| input.topN == 0
             || |input.metadata| == 0
             || (input.topN < 0 && |Elems(names)| + input.topN <= 0))
  {
    var names := VideoNames(input.metadata);
    TopDocsShape(input.topN, names);
    if |input.metadata| > 0 {
      assert names[0] in Elems(names);
    } else {
      assert Elems(names) == {};
    }
  }

  /** `invoke` answers 500 exactly when there is no top name: `top_n` is 0, the metadata is
      empty, or a negative `top_n` slices every name away. */
  lemma InvokeNoCandidateIs500(input: SearchedMultimodalDoc, fileServerEndpoint: string, chunkDuration: real)
    ensures var names := VideoNames(input.metadata);
            Invoke(input, fileServerEndpoint, chunkDuration) == Failure(HttpError(500, UnexpectedErrorDetail)) <==>
            (|| input.topN == 0
             || |input.metadata| == 0
             || (input.topN < 0 && |Elems(names)| + input.topN <= 0))
  {
    Invoke500IffNoWinner(input, fileServerEndpoint, chunkDuration);
    NoWinnerIff(input);
  }

  /** `invoke` answers 400 exactly when the winner carries an extension other than `mp4`, with
      the invalid-extension message as detail. */
  lemma InvokeBadExtensionIs400(input: SearchedMultimodalDoc, fileServerEndpoint: string, chunkDuration: real)
    ensures var r := Invoke(input, fileServerEndpoint, chunkDuration);
            (r.Failure? && r.error.statusCode == 400) <==>
            (Winner(input).Some? && exists e :: ExtensionPattern(Winner(input).value, e) && e != "mp4")
    ensures var r := Invoke(input, fileServerEndpoint, chunkDuration);
            r.Failure? && r.error.statusCode == 400 ==> StartsWith(r.error.detail, "Invalid file extension")
  {
    if Winner(input).Some? {
      FormatRejectsIff(Winner(input).value);
    }
  }

  /** The cutoff only decides whether there is an answer: any two cutoffs that keep a name
      give the same answer. */
  lemma InvokeIndependentOfCutoff(input: SearchedMultimodalDoc, a: int, b: int, fileServerEndpoint: string, chunkDuration: real)
    requires Winner(input.(topN := a)).Some? && Winner(input.(topN := b)).Some?
    ensures Invoke(input.(topN := a), fileServerEndpoint, chunkDuration) ==
            Invoke(input.(topN := b), fileServerEndpoint, chunkDuration)
  {
    WinnerIndependentOfCutoff(a, b, VideoNames(input.metadata));
  }

  /** In the votes `[x, y, x]` for two videos, `x` is the winner with `top_n = 1`. */
  lemma VotesExampleWinner(x: string, y: string, input: SearchedMultimodalDoc)
    requires x != y
    requires |input.metadata| == 3 && input.topN == 1
    requires input.metadata[0].video == x && input.metadata[1].video == y && input.metadata[2].video == x
    ensures Winner(input) == Some(x)
  {
    var names := VideoNames(input.metadata);
    assert names == [x, y, x] by {
      assert |names| == 3 && names[0] == x && names[1] == y && names[2] == x;
    }
    assert Count(names, x) == 2 && Count(names, y) == 1 by {
      assert multiset(names) == multiset{x, y, x};
    }
    VotesExampleHasWinner(x, input);
    var w := Winner(input).value;
    WinnerIsMostVoted(input);
    assert w in names;
    assert Count(names, w) >= Count(names, x);
  }

  /** The votes `[x, y, x]` keep a name with `top_n = 1`. */
  lemma VotesExampleHasWinner(x: string, input: SearchedMultimodalDoc)
    requires |input.metadata| == 3 && input.topN == 1
    requires input.metadata[0].video == x
    ensures Winner(input).Some?
  {
    var names := VideoNames(input.metadata);
    TopDocsShape(1, names);
    assert names[0] in Elems(names);
  }

  /** Three hits, two for `x` and one for another video `y`, with `top_n = 1`: the twice-seen
      video wins, at its first timestamp. */
  lemma InvokeVotesExample(x: string, y: string, query: string, t0: real, t1: real, t2: real, fileServerEndpoint: string, chunkDuration: real)
    requires x != y
    ensures var input := SearchedMultimodalDoc(query, [VideoMeta(x, t0), VideoMeta(y, t1), VideoMeta(x, t2)], 1);
            && Winner(input) == Some(x)
            && Invoke(input, fileServerEndpoint, chunkDuration) ==
               match FormatVideoName(x)
               case Success(f) => Success(LvmVideoDoc(RStrip(fileServerEndpoint, '/') + "/" + f, query, t0, chunkDuration, 512))
               case Failure(m) => Failure(HttpError(400, m))
  {
    var input := SearchedMultimodalDoc(query, [VideoMeta(x, t0), VideoMeta(y, t1), VideoMeta(x, t2)], 1);
    VotesExampleWinner(x, y, input);
    assert GetTopDoc(1, Some(VideoNames(input.metadata))).value[0] == x;
    assert FindTimestamp(input.metadata, x) == Some(t0);
  }
}
