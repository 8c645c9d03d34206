/** The `/analyze-face` handler of the relay server: it checks the request's
    image, strips a data-URI prefix, feeds the payload to the analysis engine
    process and turns that process's events into at most one HTTP response,
    never replaced once sent. */
module Relay {
  import opened Base
  import opened JsonValue

  const DataImage: string := "data:image/"
  const Base64Marker: string := ";base64,"

  const NoImage: string := "No image data provided"
  const StartupFailed: string := "Failed to start analysis engine. Is Python installed?"
  const ExecutionFailed: string := "Internal server error during analysis"
  const InvalidOutput: string := "Invalid response from analysis engine"

  /** The class `\w` of JavaScript regular expressions (without the `u` flag). */
  predicate IsWordChar(c: char) {
    ('a' <= c <= 'z') || ('A' <= c <= 'Z') || ('0' <= c <= '9') || c == '_'
  }

  /** `p` is a whole match of `data:image\/\w+;base64,`. */
  predicate IsDataUriPrefix(p: string) {
    && |p| > |DataImage| + |Base64Marker|
    && p[..|DataImage|] == DataImage
    && p[|p| - |Base64Marker|..] == Base64Marker
    && forall k :: |DataImage| <= k < |p| - |Base64Marker| ==> IsWordChar(p[k])
  }

  /** The end of the run of word characters in `s` that starts at `i`. */
  function WordRun(s: string, i: nat): (j: nat)
    requires i <= |s|
    ensures i <= j <= |s|
    ensures forall k :: i <= k < j ==> IsWordChar(s[k])
    ensures j == |s| || !IsWordChar(s[j])
    decreases |s| - i
  {
    if i < |s| && IsWordChar(s[i]) then WordRun(s, i + 1) else i
  }

  /** A run of word characters ended by a non-word character is exactly what
      WordRun finds. */
  lemma {:induction false} WordRunStopsAt(s: string, i: nat, m: nat)
    requires i <= m < |s|
    requires forall k :: i <= k < m ==> IsWordChar(s[k])
    requires !IsWordChar(s[m])
    ensures WordRun(s, i) == m
    decreases m - i
  {
    if i < m {
      WordRunStopsAt(s, i + 1, m);
    }
  }

  /** The length of the prefix the pattern `^data:image\/\w+;base64,` matches
      in `s`, if it matches. */
  function PrefixEnd(s: string): Option<nat> {
    if |s| >= |DataImage| && s[..|DataImage|] == DataImage then
      var j := WordRun(s, |DataImage|);
      if j > |DataImage| && j + |Base64Marker| <= |s| && s[j..j + |Base64Marker|] == Base64Marker
      then Some(j + |Base64Marker|)
      else None
    else None
  }

  /** `image.replace(/^data:image\/\w+;base64,/, '')`: the result is always a
      suffix of the input. */
  function StripDataUriPrefix(s: string): (r: string)
    ensures |r| <= |s| && r == s[|s| - |r|..]
  {
    match PrefixEnd(s)
    case Some(n) => s[n..]
    case None => s
  }

  /** When the input starts with a data-URI prefix, exactly that prefix is
      removed. */
  lemma StripRemovesMatchedPrefix(s: string, p: string)
    requires IsDataUriPrefix(p) && p <= s
    ensures StripDataUriPrefix(s) == s[|p|..]
  {
    var m := |p| - |Base64Marker|;
    assert s[..|DataImage|] == p[..|DataImage|];
    assert s[m] == p[m] == ';';
    forall k | |DataImage| <= k < m ensures IsWordChar(s[k]) {
      assert s[k] == p[k];
    }
    WordRunStopsAt(s, |DataImage|, m);
    assert s[m..m + |Base64Marker|] == p[m..];
  }

  /** Whatever PrefixEnd reports is a whole data-URI prefix of the input. */
  lemma PrefixEndIsDataUriPrefix(s: string)
    requires PrefixEnd(s).Some?
    ensures PrefixEnd(s).value <= |s|
    ensures IsDataUriPrefix(s[..PrefixEnd(s).value]) && s[..PrefixEnd(s).value] <= s
  {
    var n := PrefixEnd(s).value;
    var j := n - |Base64Marker|;
    var p := s[..n];
    assert p[..|DataImage|] == s[..|DataImage|];
    assert p[j..] == s[j..j + |Base64Marker|];
    forall k | |DataImage| <= k < j ensures IsWordChar(p[k]) {
      assert p[k] == s[k];
    }
  }

  /** Any input that does not start with a data-URI prefix is returned as it
      is. */
  lemma StripKeepsUnprefixed(s: string)
    requires forall p :: IsDataUriPrefix(p) ==> !(p <= s)
    ensures StripDataUriPrefix(s) == s
  {
    if PrefixEnd(s).Some? {
      PrefixEndIsDataUriPrefix(s);
      assert false;
    }
  }

  /** Only one prefix is removed (the pattern is not global): an input that
      starts with a data-URI prefix twice keeps its second copy. */
  lemma StripRemovesOnlyOnePrefix(p: string, q: string, rest: string)
    requires IsDataUriPrefix(p) && IsDataUriPrefix(q)
    ensures StripDataUriPrefix(p + q + rest) == q + rest
  {
    var s := p + q + rest;
    assert p <= s;
    StripRemovesMatchedPrefix(s, p);
    assert s[|p|..] == q + rest;
  }

  /** How the handler's first lines treat the body's `image` field. */
  datatype ImageCheck =
    | Missing          // absent or falsy: answered 400
    | NotText          // truthy but not a string: `image.replace` throws
    | Text(image: string)

  /** The `if (!image)` guard and the string the rest of the handler uses. */
  function CheckImage(image: Option<Json>): (c: ImageCheck)
    ensures c.Missing? <==> image.None? || IsFalsy(image.value)
    ensures c.Text? <==> image.Some? && image.value.JStr? && image.value.s != ""
    ensures c.Text? ==> image == Some(JStr(c.image)) && c.image != ""
  {
    match image
    case None => Missing
    case Some(j) =>
      if IsFalsy(j) then Missing
      else if j.JStr? then Text(j.s)
      else NotText
  }

  /** The JSON body the handler sends. */
  datatype Body =
    | ErrorBody(error: string)
    | ErrorDetail(error: string, detail: string)
    | Verbatim(doc: Json)

  datatype Response = Response(status: int, body: Body)

  /** One `/analyze-face` request and the engine process serving it. Event
      methods are the callbacks registered on the process; `response` is what
      has been sent, so `response.Some?` is `res.headersSent`. */
  class AnalyzeFaceRequest {
    var response: Option<Response>
    var threw: bool                   // the handler threw before spawning
    var spawned: bool
    var stdinData: Option<string>     // what was written to the engine's stdin
    var stdinEnded: bool
    var result: string                // accumulated stdout
    var errorOutput: string           // accumulated stderr
    var uncaught: bool                // a process callback threw

    ghost predicate Valid()
      reads this
    {
      && (spawned ==> stdinData.Some? && stdinEnded && !threw)
      && (!spawned ==> stdinData.None? && !stdinEnded && result == "" && errorOutput == "" && !uncaught)
      && (threw ==> response.None? && !spawned)
      && (response.Some? ==> response.value.status in {200, 400, 500})
    }

    /** The synchronous part of the handler: the image guard, the prefix strip,
        the spawn, and the write of the payload followed by the end of stdin. */
    constructor (image: Option<Json>)
      ensures Valid() && !uncaught && result == "" && errorOutput == ""
      ensures CheckImage(image).Missing? ==>
        response == Some(Response(400, ErrorBody(NoImage))) && !spawned && !threw
      ensures CheckImage(image).NotText? ==> threw && response.None? && !spawned
      ensures CheckImage(image).Text? ==>
        && spawned && response.None?
        && stdinData == Some(StripDataUriPrefix(CheckImage(image).image))
        && stdinEnded
    {
      result, errorOutput, uncaught := "", "", false;
      stdinData, stdinEnded := None, false;
      match CheckImage(image)
      case Missing =>
        response, spawned, threw := Some(Response(400, ErrorBody(NoImage))), false, false;
      case NotText =>
        response, spawned, threw := None, false, true;
      case Text(s) =>
        response, spawned, threw := None, true, false;
        stdinData := Some(StripDataUriPrefix(s));
        stdinEnded := true;
    }

    /** `stdin.on('error')`: the error is logged and nothing else happens. */
    method OnStdinError()
      requires Valid() && spawned
      ensures Valid() && unchanged(this)
    {
    }

    /** `stdout.on('data')`: the chunk is appended to `result`. */
    method OnStdout(chunk: string)
      requires Valid() && spawned
      modifies this`result
      ensures Valid() && result == old(result) + chunk
    {
      result := result + chunk;
    }

    /** `stderr.on('data')`: the chunk is appended to `errorOutput`. */
    method OnStderr(chunk: string)
      requires Valid() && spawned
      modifies this`errorOutput
      ensures Valid() && errorOutput == old(errorOutput) + chunk
    {
      errorOutput := errorOutput + chunk;
    }

    /** `on('error')`: the engine could not be started; a 500 is sent unless a
        response already went out. */
    method OnError()
      requires Valid() && spawned
      modifies this`response
      ensures Valid()
      ensures old(response).Some? ==> response == old(response)
      ensures old(response).None? ==> response == Some(Response(500, ErrorBody(StartupFailed)))
    {
      if response.None? {
        response := Some(Response(500, ErrorBody(StartupFailed)));
      }
    }

    /** `on('close')` with the exit `code` (None when the process was killed by
        a signal) and `parse`, the outcome of `JSON.parse` on each text. A
        non-zero exit answers 500 with the diagnostics and never parses; a zero
        exit parses `result` and forwards it, or answers 500 when it does not
        parse. The zero-exit path does not look at `headersSent`: if a response
        already went out, `res.json` throws, the catch block's own send throws
        again and the error escapes the callback. */
    method OnClose(code: Option<int>, parse: string -> Option<Json>)
      requires Valid() && spawned
      modifies this`response, this`uncaught
      ensures Valid()
      ensures old(response).Some? ==> response == old(response)
      ensures code != Some(0) ==>
        && uncaught == old(uncaught)
        && (old(response).None? ==> response == Some(Response(500, ErrorDetail(ExecutionFailed, errorOutput))))
      ensures code == Some(0) && old(response).None? ==>
        && uncaught == old(uncaught)
        && response == Some(match parse(result)
                            case Some(doc) => Response(200, Verbatim(doc))
                            case None => Response(500, ErrorBody(InvalidOutput)))
      ensures code == Some(0) && old(response).Some? ==> uncaught
    {
      if code != Some(0) {
        if response.None? {
          response := Some(Response(500, ErrorDetail(ExecutionFailed, errorOutput)));
        }
        return;
      }
      if response.Some? {
        uncaught := true;
        return;
      }
      match parse(result)
      case Some(doc) =>
        response := Some(Response(200, Verbatim(doc)));
      case None =>
        response := Some(Response(500, ErrorBody(InvalidOutput)));
    }
  }
}
