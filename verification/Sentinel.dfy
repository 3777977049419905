/**
 Sentinel framing of the sandbox verdict on stdout: written by sandbox/entrypoint.py `_emit`, read by
 src/acp/sandbox_client/docker_runner.py `_extract_payload`. What precedes the frame is untrusted test output.
 */
module Sentinel {
  import opened Common
  import opened Strings

  const BEGIN := "<<<ACP_RESULT_BEGIN>>>"
  const END := "<<<ACP_RESULT_END>>>"

  predicate Occurs(s: string, pat: string, i: nat) {
    i <= |s| && pat <= s[i..]
  }

  ghost predicate Contains(s: string, pat: string) {
    exists i :: Occurs(s, pat, i)
  }

  /** str.find and str.rfind. */
  function First(s: string, pat: string): (r: Option<nat>)
    ensures r.Some? ==> r.value + |pat| <= |s|
  {
    if pat <= s then Some(0)
    else if s == "" then None
    else match First(s[1..], pat)
         case None => None
         case Some(i) => Some(i + 1)
  }

  function Last(s: string, pat: string): (r: Option<nat>)
    ensures r.Some? ==> r.value + |pat| <= |s|
  {
    var later := if s == "" then None else Last(s[1..], pat);
    if later.Some? then Some(later.value + 1) else if pat <= s then Some(0) else None
  }

  lemma OccursInTail(s: string, pat: string, i: nat)
    requires s != ""
    ensures Occurs(s, pat, i + 1) <==> Occurs(s[1..], pat, i)
  {
    if i + 1 <= |s| {
      assert s[1..][i..] == s[i + 1..];
    }
  }

  lemma {:induction false} FirstIs(s: string, pat: string, i: nat)
    ensures First(s, pat).None? ==> !Occurs(s, pat, i)
    ensures First(s, pat).Some? ==> Occurs(s, pat, First(s, pat).value)
    ensures First(s, pat).Some? && i < First(s, pat).value ==> !Occurs(s, pat, i)
  {
    assert s[0..] == s;
    if !(pat <= s) && s != "" {
      FirstIs(s[1..], pat, if i == 0 then 0 else i - 1);
      if i > 0 {
        OccursInTail(s, pat, i - 1);
      }
      if First(s[1..], pat).Some? {
        OccursInTail(s, pat, First(s[1..], pat).value);
      }
    }
  }

  lemma {:induction false} LastIs(s: string, pat: string, i: nat)
    ensures Last(s, pat).None? ==> !Occurs(s, pat, i)
    ensures Last(s, pat).Some? ==> Occurs(s, pat, Last(s, pat).value)
    ensures Last(s, pat).Some? && i > Last(s, pat).value ==> !Occurs(s, pat, i)
  {
    assert s[0..] == s;
    if s != "" {
      LastIs(s[1..], pat, if i == 0 then 0 else i - 1);
      if i > 0 {
        OccursInTail(s, pat, i - 1);
      }
      if Last(s[1..], pat).Some? {
        OccursInTail(s, pat, Last(s[1..], pat).value);
      }
    }
  }

  /** The text after the last `b`, up to the first `e` behind it, stripped. */
  function Between(out: string, b: string, e: string): Option<string> {
    match (Last(out, b), First(out, e))
    case (Some(i), Some(_)) =>
      var after := out[i + |b|..];
      Some(Strip(match First(after, e)
                 case None => after
                 case Some(j) => after[..j]))
    case _ => None
  }

  function Extract(out: string): Option<string> {
    Between(out, BEGIN, END)
  }

  function Frame(body: string): string {
    BEGIN + "\n" + body + "\n" + END + "\n"
  }

  /** Standard output: bytes are only ever appended. */
  class Stdout {
    var text: string

    constructor (noise: string)
      ensures text == noise
    {
      text := noise;
    }

    method Write(chunk: string)
      modifies this
      ensures text == old(text) + chunk
    {
      text := text + chunk;
    }

    method Emit(body: string)
      modifies this
      ensures text == old(text) + Frame(body)
    {
      Write(BEGIN + "\n");
      Write(body);
      Write("\n" + END + "\n");
      assert text == old(text) + Frame(body);
    }
  }

  // ---------------------------------------------------------------------------------------------
  // No marker straddles a line break

  predicate OneLine(pat: string) {
    pat != "" && forall i :: 0 <= i < |pat| ==> pat[i] != '\n'
  }

  lemma OccursAt(s: string, pat: string, i: nat, k: nat)
    requires Occurs(s, pat, i) && k < |pat|
    ensures i + k < |s| && s[i + k] == pat[k]
  {
    assert s[i..][k] == pat[k];
  }

  /** Left of a line break, an occurrence lies entirely in the left part. */
  lemma OccursLeft(a: string, b: string, pat: string, i: nat)
    requires OneLine(pat) && i <= |a|
    ensures Occurs(a + "\n" + b, pat, i) <==> Occurs(a, pat, i)
  {
    var s := a + "\n" + b;
    if Occurs(s, pat, i) {
      if i + |pat| > |a| {
        OccursAt(s, pat, i, |a| - i);
      }
      assert s[i..][..|pat|] == a[i..][..|pat|];
    }
    if Occurs(a, pat, i) {
      assert s[i..][..|pat|] == a[i..][..|pat|];
    }
  }

  lemma OccursRight(a: string, b: string, pat: string, i: nat)
    ensures Occurs(a + b, pat, |a| + i) <==> Occurs(b, pat, i)
  {
    if i <= |b| {
      assert (a + b)[|a| + i..] == b[i..];
    }
  }

  /** `b`, a line break, a body, a line break and a tail too short to hold `b`. */
  function Framed(b: string, body: string, tail: string): string {
    b + "\n" + (body + "\n" + tail)
  }

  lemma OccursInFramed(b: string, body: string, tail: string, i: nat)
    requires OneLine(b) && |tail| < |b| && i > 0 && Occurs(Framed(b, body, tail), b, i)
    ensures i > |b| && Occurs(body, b, i - |b| - 1)
  {
    var rest := body + "\n" + tail;
    if i <= |b| {
      OccursLeft(b, rest, b, i);
    } else {
      var k := i - |b| - 1;
      OccursRight(b + "\n", rest, b, k);
      if k <= |body| {
        OccursLeft(body, tail, b, k);
      }
    }
  }

  lemma BodyOccursInFramed(b: string, body: string, tail: string, j: nat)
    requires OneLine(b) && Occurs(body, b, j)
    ensures Occurs(Framed(b, body, tail), b, |b| + 1 + j)
  {
    OccursLeft(body, tail, b, j);
    OccursRight(b + "\n", body + "\n" + tail, b, j);
  }

  // ---------------------------------------------------------------------------------------------
  // Where the markers are found

  ghost predicate LastOccurs(s: string, pat: string, k: nat) {
    Occurs(s, pat, k) && forall i: nat :: i > k ==> !Occurs(s, pat, i)
  }

  lemma LastIsUnique(s: string, pat: string, k: nat)
    requires LastOccurs(s, pat, k)
    ensures Last(s, pat) == Some(k)
  {
    LastIs(s, pat, k);
  }

  lemma FirstIsUnique(s: string, pat: string, k: nat)
    requires Occurs(s, pat, k) && forall i :: 0 <= i < k ==> !Occurs(s, pat, i)
    ensures First(s, pat) == Some(k)
  {
    FirstIs(s, pat, k);
    FirstIs(s, pat, if First(s, pat).Some? then First(s, pat).value else 0);
  }

  /** Where the last `b` of the framed body is, counted from the frame's start. */
  function LastMarker(b: string, body: string): nat {
    match Last(body, b)
    case None => 0
    case Some(j) => |b| + 1 + j
  }

  lemma MarkerIsThere(b: string, body: string, tail: string)
    requires OneLine(b)
    ensures Occurs(Framed(b, body, tail), b, LastMarker(b, body))
  {
    if Last(body, b).Some? {
      LastIs(body, b, 0);
      BodyOccursInFramed(b, body, tail, Last(body, b).value);
    } else {
      assert Framed(b, body, tail)[0..] == Framed(b, body, tail);
    }
  }

  lemma NoMarkerLater(b: string, body: string, tail: string, i: nat)
    requires OneLine(b) && |tail| < |b| && i > LastMarker(b, body)
    ensures !Occurs(Framed(b, body, tail), b, i)
  {
    if Occurs(Framed(b, body, tail), b, i) {
      OccursInFramed(b, body, tail, i);
      LastIs(body, b, i - |b| - 1);
    }
  }

  lemma LastMarkerOccurs(b: string, body: string, tail: string)
    requires OneLine(b) && |tail| < |b|
    ensures LastOccurs(Framed(b, body, tail), b, LastMarker(b, body))
  {
    MarkerIsThere(b, body, tail);
    forall i: nat | i > LastMarker(b, body)
      ensures !Occurs(Framed(b, body, tail), b, i)
    {
      NoMarkerLater(b, body, tail, i);
    }
  }

  lemma LastOccursBehindNoise(noise: string, frame: string, b: string, k: nat)
    requires LastOccurs(frame, b, k)
    ensures LastOccurs(noise + frame, b, |noise| + k)
  {
    OccursRight(noise, frame, b, k);
    forall i: nat | i > |noise| + k
      ensures !Occurs(noise + frame, b, i)
    {
      OccursRight(noise, frame, b, i - |noise|);
    }
  }

  /** Noise in front of a text does not hide its last marker. */
  lemma LastBehindNoise(noise: string, frame: string, b: string, k: nat)
    requires LastOccurs(frame, b, k)
    ensures Last(noise + frame, b) == Some(|noise| + k)
  {
    LastOccursBehindNoise(noise, frame, b, k);
    LastIsUnique(noise + frame, b, |noise| + k);
  }

  function FirstMarker(text: string, e: string): nat {
    match First(text, e)
    case None => |text| + 1
    case Some(i) => i
  }

  /** Behind a text and a line break, the first marker is the one there, or the first one in the text. */
  lemma FirstMarkerIsFound(text: string, e: string, rest: string)
    requires OneLine(e)
    ensures First(text + "\n" + (e + rest), e) == Some(FirstMarker(text, e))
  {
    var s, tail, k := text + "\n" + (e + rest), e + rest, FirstMarker(text, e);
    if First(text, e).Some? {
      FirstIs(text, e, 0);
      OccursLeft(text, tail, e, k);
    } else {
      assert tail[0..] == tail;
      OccursRight(text + "\n", tail, e, 0);
    }
    forall i: nat | i < k
      ensures !Occurs(s, e, i)
    {
      OccursLeft(text, tail, e, i);
      FirstIs(text, e, i);
    }
    FirstIsUnique(s, e, k);
  }

  // ---------------------------------------------------------------------------------------------
  // Stripping

  lemma {:induction false} StripIsShorter(s: string)
    ensures |Strip(s)| <= |s|
  {
    StripEndIsShorter(Span(PySpace, s).1);
  }

  lemma {:induction false} SpanBeforeBreak(s: string)
    ensures Span(PySpace, s + "\n").1 == if Span(PySpace, s).1 == "" then "" else Span(PySpace, s).1 + "\n"
  {
    if s == "" {
      assert s + "\n" == "\n" && "\n"[1..] == "";
    } else {
      assert (s + "\n")[1..] == s[1..] + "\n";
      if PySpace(s[0]) {
        SpanBeforeBreak(s[1..]);
      }
    }
  }

  /** The line breaks around the body are stripped with its own white space. */
  lemma StripOfLines(s: string)
    ensures Strip("\n" + s) == Strip(s) && Strip("\n" + s + "\n") == Strip(s)
  {
    assert ("\n" + s)[1..] == s && ("\n" + s + "\n")[1..] == s + "\n";
    SpanBeforeBreak(s);
    var rest := Span(PySpace, s).1;
    assert (rest + "\n")[..|rest|] == rest;
  }

  // ---------------------------------------------------------------------------------------------
  // The round trip

  lemma MarkersFit()
    ensures OneLine(BEGIN) && OneLine(END) && |END + "\n"| < |BEGIN|
  {
  }

  /** The text between the last marker and the frame's closing line break. */
  function Behind(b: string, body: string): string {
    match Last(body, b)
    case None => "\n" + body
    case Some(j) => body[j + |b|..]
  }

  /** What the host reads back from any noise followed by a frame. */
  function Received(b: string, body: string, e: string): string {
    match First(Behind(b, body), e)
    case None => Behind(b, body)
    case Some(i) => Behind(b, body)[..i]
  }

  lemma FrameIsFramed(body: string)
    ensures Frame(body) == Framed(BEGIN, body, END + "\n")
  {
  }

  lemma AfterMarker(noise: string, b: string, body: string, tail: string)
    ensures var k := |noise| + LastMarker(b, body) + |b|;
            var out := noise + Framed(b, body, tail);
            k <= |out| && out[k..] == Behind(b, body) + "\n" + tail
  {
    var rest := "\n" + (body + "\n" + tail);
    var out := noise + Framed(b, body, tail);
    assert out == noise + b + rest;
    if Last(body, b).Some? {
      var j := Last(body, b).value;
      assert rest[1 + j + |b|..] == body[j + |b|..] + "\n" + tail;
      assert out[|noise| + |b| + 1 + j + |b|..] == rest[1 + j + |b|..];
    } else {
      assert out[|noise| + |b|..] == rest;
    }
  }

  lemma EndIsThere(noise: string, b: string, body: string, e: string)
    ensures First(noise + Framed(b, body, e + "\n"), e).Some?
  {
    var before, tail := noise + b + "\n" + body + "\n", e + "\n";
    assert noise + Framed(b, body, tail) == before + tail;
    assert tail[0..] == tail && e <= tail;
    OccursRight(before, tail, e, 0);
    FirstIs(before + tail, e, |before|);
  }

  lemma BetweenIs(out: string, b: string, e: string, i: nat, after: string, j: nat)
    requires Last(out, b) == Some(i) && First(out, e).Some?
    requires out[i + |b|..] == after && First(after, e) == Some(j)
    ensures Between(out, b, e) == Some(Strip(after[..j]))
  {
  }

  lemma ReceivedIs(b: string, body: string, e: string, after: string)
    requires after == Behind(b, body) + "\n" + (e + "\n")
    ensures var j := FirstMarker(Behind(b, body), e); j <= |after| && Strip(after[..j]) == Strip(Received(b, body, e))
  {
    UpToMarker(Behind(b, body), e, "\n");
    StripOfTrailingBreak(Behind(b, body));
  }

  lemma BetweenYields(noise: string, b: string, body: string, e: string)
    requires OneLine(b) && OneLine(e) && |e + "\n"| < |b|
    ensures Between(noise + Framed(b, body, e + "\n"), b, e) == Some(Strip(Received(b, body, e)))
  {
    var end := e + "\n";
    var out, behind := noise + Framed(b, body, end), Behind(b, body);
    var after := behind + "\n" + end;
    LastMarkerOccurs(b, body, end);
    LastBehindNoise(noise, Framed(b, body, end), b, LastMarker(b, body));
    AfterMarker(noise, b, body, end);
    EndIsThere(noise, b, body, e);
    FirstMarkerIsFound(behind, e, "\n");
    ReceivedIs(b, body, e, after);
    BetweenIs(out, b, e, |noise| + LastMarker(b, body), after, FirstMarker(behind, e));
  }

  /** What comes out of a frame, whatever noise precedes it and whatever the body holds. */
  lemma ExtractYields(noise: string, body: string)
    ensures Extract(noise + Frame(body)) == Some(Strip(Received(BEGIN, body, END)))
  {
    MarkersFit();
    FrameIsFramed(body);
    BetweenYields(noise, BEGIN, body, END);
  }

  lemma UpToMarker(text: string, e: string, rest: string)
    ensures var s := text + "\n" + (e + rest);
            FirstMarker(text, e) <= |s|
            && s[..FirstMarker(text, e)] == if First(text, e).None? then text + "\n" else text[..First(text, e).value]
  {
  }

  lemma StripOfTrailingBreak(s: string)
    ensures Strip(s + "\n") == Strip(s)
  {
    SpanBeforeBreak(s);
    var rest := Span(PySpace, s).1;
    assert (rest + "\n")[..|rest|] == rest;
  }

  lemma BreakIsNotMarker(body: string, i: nat)
    requires Occurs("\n" + body, END, i)
    ensures i > 0 && Occurs(body, END, i - 1)
  {
    OccursAt("\n" + body, END, i, 0);
    OccursRight("\n", body, END, i - 1);
  }

  lemma ReceivedIsShorter(body: string)
    ensures Contains(body, BEGIN) || Contains(body, END) ==> |Received(BEGIN, body, END)| < |body|
    ensures !Contains(body, BEGIN) && !Contains(body, END) ==> Received(BEGIN, body, END) == "\n" + body
  {
    MarkersFit();
    var text := "\n" + body;
    if i: nat :| Occurs(body, BEGIN, i) {
      LastIs(body, BEGIN, i);
    } else if Last(body, BEGIN).Some? {
      LastIs(body, BEGIN, 0);
    }
    if i: nat :| Occurs(body, END, i) {
      OccursRight("\n", body, END, i);
      FirstIs(text, END, 1 + i);
    } else if First(text, END).Some? {
      FirstIs(text, END, 0);
      BreakIsNotMarker(body, First(text, END).value);
    }
  }

  /** The host gets the sandbox's verdict text back, behind any noise, if and only if the text is stripped and
      contains neither marker. */
  lemma RoundTripIff(noise: string, body: string)
    ensures Extract(noise + Frame(body)) == Some(body)
       <==> Strip(body) == body && !Contains(body, BEGIN) && !Contains(body, END)
  {
    ExtractYields(noise, body);
    ReceivedIsShorter(body);
    StripIsShorter(Received(BEGIN, body, END));
    StripOfLines(body);
  }
}
