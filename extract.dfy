/**
 * `extractJSONObject`: finds the JSON object embedded in the agent's output
 * (log lines before and after it are common) by trying every `{` from left
 * to right and keeping the first one at which a whole object decodes.
 */
module Extract {
  import opened Wrappers
  import opened GoStrings
  import opened GoErrors
  import opened GoJson
  import opened Search

  /** The error returned when no brace starts an acceptable object. */
  const NotFoundText := "json object not found in output"

  /**
   * What the scan accepts at position `i` of `raw`: `i` holds a brace, an
   * object decodes from there, the decoder's offset stays inside `raw`, and
   * the consumed span, trimmed, passes `json.Valid`. The candidate is that
   * trimmed span. Positions past the end yield nothing.
   */
  function Candidate(lib: JsonLib, raw: string, i: nat): Option<string> {
    if |raw| <= i || raw[i] != '{' then None
    else match lib.decodeObject(raw[i..])
      case None => None
      case Some(offset) =>
        if offset <= 0 || i + offset > |raw| then None
        else
          var candidate := TrimSpace(raw[i..i + offset]);
          if lib.valid(candidate) then Some(candidate) else None
  }

  function Candidates(lib: JsonLib, raw: string): nat -> Option<string> {
    (i: nat) => Candidate(lib, raw, i)
  }

  /** What `extractJSONObject(raw)` returns: the first candidate, or the not-found error. */
  function ExtractedObject(lib: JsonLib, raw: string): Result<string, Error> {
    match FirstSome(Candidates(lib, raw), 0, |raw|)
    case Some(c) => Success(c)
    case None => Failure(Plain(NotFoundText))
  }

  /** The scan as the server runs it: one pass over the positions, stopping at the first success. */
  method ExtractJsonObject(lib: JsonLib, raw: string) returns (r: Result<string, Error>)
    ensures r == ExtractedObject(lib, raw)
  {
    ghost var cands := Candidates(lib, raw);
    for i := 0 to |raw|
      invariant FirstSome(cands, i, |raw|) == FirstSome(cands, 0, |raw|)
    {
      if raw[i] != '{' {
        assert cands(i).None?;
        continue;
      }
      var decoded := lib.decodeObject(raw[i..]);
      if decoded.None? {
        assert cands(i).None?;
        continue;
      }
      var offset := decoded.value;
      if offset <= 0 || i + offset > |raw| {
        assert cands(i).None?;
        continue;
      }
      var candidate := TrimSpace(raw[i..i + offset]);
      if !lib.valid(candidate) {
        assert cands(i).None?;
        continue;
      }
      assert cands(i) == Some(candidate);
      return Success(candidate);
    }
    return Failure(Plain(NotFoundText));
  }

  /**
   * First match wins: extraction returns `c` exactly when `c` is the
   * candidate at some position `i` and no position before `i` yields one.
   */
  lemma ExtractedIsLeftmostCandidate(lib: JsonLib, raw: string, c: string)
    ensures ExtractedObject(lib, raw) == Success(c) <==>
            exists i | 0 <= i < |raw| :: Candidate(lib, raw, i) == Some(c)
                                        && forall k | 0 <= k < i :: Candidate(lib, raw, k).None?
  {
    var f := Candidates(lib, raw);
    assert forall k: nat :: f(k) == Candidate(lib, raw, k);
    FirstSomeLeftmost(f, |raw|, c);
  }

  /** Extraction fails, always with the not-found error, exactly when no position yields a candidate. */
  lemma ExtractFailsIffNoCandidate(lib: JsonLib, raw: string)
    ensures ExtractedObject(lib, raw).Failure? <==> forall i | 0 <= i < |raw| :: Candidate(lib, raw, i).None?
    ensures ExtractedObject(lib, raw).Failure? ==> Message(ExtractedObject(lib, raw).error) == NotFoundText
  {
    var f := Candidates(lib, raw);
    assert forall k: nat :: f(k) == Candidate(lib, raw, k);
    FirstSomeNone(f, 0, |raw|);
  }

  /** Output without an opening brace never yields an object. */
  lemma NoBraceNoObject(lib: JsonLib, raw: string)
    requires forall i | 0 <= i < |raw| :: raw[i] != '{'
    ensures ExtractedObject(lib, raw) == Failure(Plain(NotFoundText))
  {
    ExtractFailsIffNoCandidate(lib, raw);
  }

  /**
   * What is relayed is an object the library accepts, cut out of the output:
   * it starts with the brace the scan stopped at, has no white space at its
   * ends, and is the trimmed span the decoder consumed from that brace.
   */
  lemma ExtractedIsTrimmedSpan(lib: JsonLib, raw: string)
    requires ExtractedObject(lib, raw).Success?
    ensures var c := ExtractedObject(lib, raw).value;
            lib.valid(c) && NoSpaceAtEnds(c) && c != [] && c[0] == '{'
            && exists i, j | 0 <= i < j <= |raw| ::
              raw[i] == '{' && lib.decodeObject(raw[i..]) == Some(j - i) && c == TrimSpace(raw[i..j])
  {
    var c := ExtractedObject(lib, raw).value;
    var i := FirstSomeFound(Candidates(lib, raw), 0, |raw|);
    assert Candidate(lib, raw, i) == Some(c);
    var offset := lib.decodeObject(raw[i..]).value;
    var span := raw[i..i + offset];
    assert span[0] == '{' && !IsSpace(span[0]);
    assert SpaceEnd(span, 0) == 0;
    SpaceStartSkipsSpace(span, 0, SpaceStart(span, 0, |span|), |span|);
    assert lib.decodeObject(raw[i..]) == Some((i + offset) - i);
  }

  /**
   * The server's test case `before {"result":"ok"} after` in general form: a
   * trimmed object preceded by text without a brace is extracted verbatim
   * whenever the library decodes exactly that object there and accepts it.
   */
  lemma ObjectAfterNoise(lib: JsonLib, before: string, obj: string, after: string)
    requires forall k | 0 <= k < |before| :: before[k] != '{'
    requires obj != [] && obj[0] == '{' && NoSpaceAtEnds(obj)
    requires lib.decodeObject(obj + after) == Some(|obj|)
    requires lib.valid(obj)
    ensures ExtractedObject(lib, before + obj + after) == Success(obj)
  {
    var raw := before + obj + after;
    var i := |before|;
    assert raw[i..] == obj + after;
    assert raw[i..i + |obj|] == obj;
    assert [] + obj + [] == obj;
    TrimSpacePadded([], obj, []);
    assert Candidate(lib, raw, i) == Some(obj);
    forall k | 0 <= k < i ensures Candidates(lib, raw)(k).None? {
      assert raw[k] == before[k];
    }
    FirstSomeAt(Candidates(lib, raw), 0, i, |raw|);
  }

  /**
   * The server test's agent output `before {"result":"ok"} after`: whatever
   * the library does elsewhere, if it decodes the object at its brace and
   * accepts it, the object alone is extracted.
   */
  lemma ResultOkExample(lib: JsonLib)
    requires lib.decodeObject("{\"result\":\"ok\"} after") == Some(15)
    requires lib.valid("{\"result\":\"ok\"}")
    ensures ExtractedObject(lib, "before {\"result\":\"ok\"} after") == Success("{\"result\":\"ok\"}")
  {
    var obj := "{\"result\":\"ok\"}";
    assert "before {\"result\":\"ok\"} after" == "before " + obj + " after";
    assert obj + " after" == "{\"result\":\"ok\"} after" && |obj| == 15;
    ObjectAfterNoise(lib, "before ", obj, " after");
  }
}
