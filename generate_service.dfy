/** The `/generate` endpoint of API/Finance.py: the string post-processing
    around an opaque text generator. Tokenizing, `model.generate` and decoding
    are one function-valued parameter. */
module GenerateService {
  import opened Text
  import opened Wire

  /** The marker after which the generated reply starts. */
  const Marker: String := "Bot:"

  /** Keeps what follows the first marker, stripped; a text without the
      marker is returned as it is, not stripped. */
  function PostProcess(generated: String): (r: String)
    ensures !Contains(generated, Marker) ==> r == generated
    ensures Contains(generated, Marker) ==> IsStripped(Python, r) && |r| <= |generated| - |Marker|
  {
    match IndexOf(generated, Marker)
    case None => generated
    case Some(i) => Strip(Python, generated[i + |Marker|..])
  }

  /** No occurrence of the marker can straddle the end of a marker-free
      prefix, so the marker that follows it is the first one. */
  lemma FirstMarkerAfter(pre: String, rest: String)
    requires !Contains(pre, Marker)
    ensures IndexOf(pre + Marker + rest, Marker) == Some(|pre|)
  {
    var text := pre + Marker + rest;
    assert text[|pre|..|pre| + |Marker|] == Marker;
    assert OccursAt(text, Marker, |pre|);
    forall p: nat | p < |pre| ensures !OccursAt(text, Marker, p) {
      if p + |Marker| <= |pre| {
        assert !OccursAt(pre, Marker, p);
        assert text[p..p + |Marker|] == pre[p..p + |Marker|];
      } else {
        assert text[p + 3] == Marker[p + 3 - |pre|];
        assert text[p + 3] != ':';
        assert text[p..p + |Marker|][3] == text[p + 3];
      }
    }
  }

  /** The reply is the stripped text after the first marker, whatever follows. */
  lemma {:induction false} SplitAtFirstMarker(pre: String, rest: String)
    requires !Contains(pre, Marker)
    ensures PostProcess(pre + Marker + rest) == Strip(Python, rest)
  {
    var text := pre + Marker + rest;
    FirstMarkerAfter(pre, rest);
    assert text[|pre| + |Marker|..] == rest;
  }

  /** The marker has no whitespace at either end, so stripping keeps it. */
  lemma StripKeepsMarker(rest: String, q: nat)
    requires OccursAt(rest, Marker, q)
    ensures Contains(Strip(Python, rest), Marker)
  {
    assert rest[q..q + |Marker|] == Marker;
    assert rest[q] == rest[q..q + |Marker|][0];
    assert rest[q + 3] == rest[q..q + |Marker|][3];
    StripKeepsInner(Python, rest, q, |Marker|);
    assert OccursAt(Strip(Python, rest), Marker, q - StripFrom(Python, rest));
  }

  /** Only the first marker splits: later markers stay in the reply. */
  lemma LaterMarkersKept(pre: String, rest: String)
    requires !Contains(pre, Marker) && Contains(rest, Marker)
    ensures Contains(PostProcess(pre + Marker + rest), Marker)
  {
    var q: nat :| OccursAt(rest, Marker, q);
    StripKeepsMarker(rest, q);
    SplitAtFirstMarker(pre, rest);
  }

  /** The `/generate` endpoint: `{"response": …}` holding the post-processed
      output of the generator for the prompt. */
  function GenerateText(request: GenerateRequest, generate: String -> String): (r: GenerateResponse)
    ensures !Contains(generate(request.prompt), Marker) ==> r.response == generate(request.prompt)
    ensures Contains(generate(request.prompt), Marker) ==> IsStripped(Python, r.response)
  {
    GenerateResponse(PostProcess(generate(request.prompt)))
  }
}
