/**
 * Reading one selected file as text in collect_files_thread: the encodings
 * are tried in order, the first that decodes supplies the content, a decode
 * failure moves on to the next encoding, and any other failure stops at once.
 * What opening and reading the file under one encoding gives is an input:
 * a function from encoding name to the outcome of that attempt.
 */
module Reading {

  datatype Option<T> = None | Some(value: T)

  /** The outcome of opening and reading a file under one encoding. */
  datatype Attempt =
    | Decoded(text: string)                         // the read succeeded
    | DecodeFailure                                 // UnicodeDecodeError
    | OtherFailure(typeName: string, message: string) // any other exception: its class name and str()

  /** The two variables the encoding loop leaves behind: `content` and `error_msg`. */
  datatype ReadResult = ReadResult(content: Option<string>, errorMsg: Option<string>)

  /** The encodings tried, in this order. */
  const ENCODINGS: seq<string> := ["utf-8", "latin-1", "cp1252"]

  /** The message a decode failure leaves: bracketed, and ending with the
      name of the encoding that failed. */
  function DecodeFailureMarker(encoding: string): (r: string)
    ensures |r| > |encoding| && r[0] == '[' && r[|r| - 1] == ']'
    ensures r[|r| - 1 - |encoding|..|r| - 1] == encoding
  {
    "[Read Error: Failed to decode with " + encoding + "]"
  }

  /** The message any other failure leaves: bracketed, with the exception's
      class name after the "[Read Error: " prefix and its text at the end. */
  function OtherFailureMarker(typeName: string, message: string): (r: string)
    ensures |r| > 13 + |typeName| + |message| && r[0] == '[' && r[|r| - 1] == ']'
    ensures r[13..13 + |typeName|] == typeName
    ensures r[|r| - 1 - |message|..|r| - 1] == message
  {
    "[Read Error: " + typeName + " - " + message + "]"
  }

  const UNKNOWN_ISSUE_MARKER: string := "[Read Error: Unknown issue reading file]"

  /** The encoding loop as a state machine over the encodings still to try,
      starting from the error message recorded so far. */
  function Fallback(encodings: seq<string>, attempt: string -> Attempt, errorMsg: Option<string>): (r: ReadResult)
    ensures r.errorMsg != errorMsg ==> r.errorMsg.Some? && |r.errorMsg.value| > 0 && r.errorMsg.value[0] == '['
  {
    if encodings == [] then ReadResult(None, errorMsg)
    else
      match attempt(encodings[0])
      case Decoded(text) => ReadResult(Some(text), errorMsg)
      case DecodeFailure => Fallback(encodings[1..], attempt, Some(DecodeFailureMarker(encodings[0])))
      case OtherFailure(typeName, message) => ReadResult(None, Some(OtherFailureMarker(typeName, message)))
  }

  /** The position of the first encoding whose attempt is not a decode
      failure, or the number of encodings when every attempt is one. */
  function FirstDecisive(encodings: seq<string>, attempt: string -> Attempt): (k: nat)
    ensures k <= |encodings|
    ensures forall j :: 0 <= j < k ==> attempt(encodings[j]) == DecodeFailure
    ensures k < |encodings| ==> attempt(encodings[k]) != DecodeFailure
  {
    if encodings == [] || attempt(encodings[0]) != DecodeFailure then 0
    else 1 + FirstDecisive(encodings[1..], attempt)
  }

  /** The loop's outcome, stated through the first decisive encoding: its
      text with the failure marker of the encoding before it (if any), or the
      marker of the other failure, or, when every encoding failed to decode,
      no content and the marker naming the last encoding tried. */
  lemma {:induction false} FallbackOutcome(encodings: seq<string>, attempt: string -> Attempt, errorMsg: Option<string>)
    ensures var k := FirstDecisive(encodings, attempt);
      var before := if k == 0 then errorMsg else Some(DecodeFailureMarker(encodings[k - 1]));
      && (k == |encodings| ==> Fallback(encodings, attempt, errorMsg) == ReadResult(None, before))
      && (k < |encodings| && attempt(encodings[k]).Decoded? ==>
            Fallback(encodings, attempt, errorMsg) == ReadResult(Some(attempt(encodings[k]).text), before))
      && (k < |encodings| && attempt(encodings[k]).OtherFailure? ==>
            Fallback(encodings, attempt, errorMsg) ==
              ReadResult(None, Some(OtherFailureMarker(attempt(encodings[k]).typeName, attempt(encodings[k]).message))))
  {
    if encodings != [] && attempt(encodings[0]) == DecodeFailure {
      var rest := encodings[1..];
      FallbackOutcome(rest, attempt, Some(DecodeFailureMarker(encodings[0])));
      var k := FirstDecisive(rest, attempt);
      if k > 0 {
        assert rest[k - 1] == encodings[k];
      }
      if k < |rest| {
        assert rest[k] == encodings[k + 1];
      }
    }
  }

  /** The encoding loop of collect_files_thread, with its `break` on success,
      `continue` on a decode failure and `break` on any other failure. */
  method ReadWithFallback(encodings: seq<string>, attempt: string -> Attempt)
    returns (content: Option<string>, errorMsg: Option<string>)
    ensures ReadResult(content, errorMsg) == Fallback(encodings, attempt, None)
  {
    content := None;
    errorMsg := None;
    var i := 0;
    while i < |encodings|
      invariant 0 <= i <= |encodings|
      invariant content == None
      invariant Fallback(encodings[i..], attempt, errorMsg) == Fallback(encodings, attempt, None)
    {
      var encoding := encodings[i];
      match attempt(encoding) {
        case Decoded(text) =>
          content := Some(text);
          break;
        case DecodeFailure =>
          errorMsg := Some(DecodeFailureMarker(encoding));
          assert encodings[i..][1..] == encodings[i + 1..];
        case OtherFailure(typeName, message) =>
          errorMsg := Some(OtherFailureMarker(typeName, message));
          break;
      }
      i := i + 1;
    }
  }

  /** What is written for the file's body: the content when there is some
      (even after an earlier decode failure), else the recorded error
      message, else the unknown-issue marker; each marker ends its line. */
  function Body(r: ReadResult): (b: string)
    ensures r.content.Some? ==> b == r.content.value
    ensures r.content.None? ==> |b| > 0 && b[|b| - 1] == '\n'
  {
    if r.content.Some? then r.content.value
    else if r.errorMsg.Some? && r.errorMsg.value != [] then r.errorMsg.value + "\n"
    else UNKNOWN_ISSUE_MARKER + "\n"
  }

  /** With at least one encoding to try the loop always leaves content or a
      non-empty error message, so the unknown-issue branch is never taken. */
  lemma {:induction false} UnknownIssueUnreachable(encodings: seq<string>, attempt: string -> Attempt, errorMsg: Option<string>)
    requires encodings != []
    ensures var r := Fallback(encodings, attempt, errorMsg);
      r.content.Some? || (r.errorMsg.Some? && r.errorMsg.value != [] && r.errorMsg.value[0] == '[')
    ensures var r := Fallback(encodings, attempt, errorMsg);
      Body(r) == if r.content.Some? then r.content.value else r.errorMsg.value + "\n"
  {
    if attempt(encodings[0]) == DecodeFailure && |encodings| > 1 {
      UnknownIssueUnreachable(encodings[1..], attempt, Some(DecodeFailureMarker(encodings[0])));
    }
  }

  /** The body of a file under the three encodings actually tried, in every
      case: the text of the first encoding that decodes, with no marker; the
      marker of the first failure other than decoding, once every earlier
      encoding failed to decode; and after three decode failures, the marker
      naming cp1252. */
  lemma BodyUnderEncodings(attempt: string -> Attempt)
    ensures attempt("utf-8").Decoded? ==> Body(Fallback(ENCODINGS, attempt, None)) == attempt("utf-8").text
    ensures attempt("utf-8") == DecodeFailure && attempt("latin-1").Decoded? ==>
      Body(Fallback(ENCODINGS, attempt, None)) == attempt("latin-1").text
    ensures attempt("utf-8").OtherFailure? ==>
      Body(Fallback(ENCODINGS, attempt, None)) ==
        OtherFailureMarker(attempt("utf-8").typeName, attempt("utf-8").message) + "\n"
    ensures attempt("utf-8") == DecodeFailure && attempt("latin-1").OtherFailure? ==>
      Body(Fallback(ENCODINGS, attempt, None)) ==
        OtherFailureMarker(attempt("latin-1").typeName, attempt("latin-1").message) + "\n"
    ensures attempt("utf-8") == DecodeFailure && attempt("latin-1") == DecodeFailure && attempt("cp1252").Decoded? ==>
      Body(Fallback(ENCODINGS, attempt, None)) == attempt("cp1252").text
    ensures attempt("utf-8") == DecodeFailure && attempt("latin-1") == DecodeFailure && attempt("cp1252").OtherFailure? ==>
      Body(Fallback(ENCODINGS, attempt, None)) ==
        OtherFailureMarker(attempt("cp1252").typeName, attempt("cp1252").message) + "\n"
    ensures attempt("utf-8") == DecodeFailure && attempt("latin-1") == DecodeFailure && attempt("cp1252") == DecodeFailure ==>
      Body(Fallback(ENCODINGS, attempt, None)) == DecodeFailureMarker("cp1252") + "\n"
  {
    assert ENCODINGS[1..] == ["latin-1", "cp1252"];
    assert ENCODINGS[1..][1..] == ["cp1252"];
    assert ENCODINGS[1..][1..][1..] == [];
    if attempt("utf-8") == DecodeFailure && attempt("latin-1") == DecodeFailure && attempt("cp1252") == DecodeFailure {
      var lastTried := Fallback(["cp1252"], attempt, Some(DecodeFailureMarker("latin-1")));
      assert lastTried == ReadResult(None, Some(DecodeFailureMarker("cp1252")));
      assert Fallback(ENCODINGS, attempt, None) == lastTried;
    }
  }

  /** Python's latin-1 codec decodes every byte string, so when its attempt
      is not a decode failure the cp1252 attempt is never made: the outcome
      is that of the first two encodings alone. */
  lemma {:induction false} Latin1EndsTheSearch(attempt: string -> Attempt)
    requires attempt("latin-1") != DecodeFailure
    ensures Fallback(ENCODINGS, attempt, None) == Fallback(["utf-8", "latin-1"], attempt, None)
  {
    assert ENCODINGS[1..] == ["latin-1", "cp1252"];
    assert ["utf-8", "latin-1"][1..] == ["latin-1"];
    assert ENCODINGS[1..][0] == ["utf-8", "latin-1"][1..][0] == "latin-1";
  }
}
