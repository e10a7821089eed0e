/** The textual side of `build_output`: cutting base64 text into lines the way
    Python's `textwrap.wrap` does for text it cannot break at white space or
    hyphens, framing the lines as a PEM certificate request (section 7 of
    RFC 7468), and the reader a PEM consumer applies to get the DER back. */
module Pem {
  import opened Types
  import Base64

  const StartMarker: string := "-----BEGIN CERTIFICATE REQUEST-----"
  const EndMarker: string := "-----END CERTIFICATE REQUEST-----"

  /** The line width `build_output` passes to `textwrap.wrap`; also the width
      section 2 of RFC 7468 asks generators to use. */
  const LineWidth: nat := 64

  /** The characters `textwrap` breaks lines at: its white space and the
      hyphen. */
  predicate IsBreakChar(c: char) {
    c == '\t' || c == '\n' || c == '\U{B}' || c == '\U{C}' || c == '\r' || c == ' ' || c == '-'
  }

  predicate Unbreakable(s: string) {
    forall i | 0 <= i < |s| :: !IsBreakChar(s[i])
  }

  /** The lines glued back together. */
  function Concat(lines: seq<string>): string {
    if lines == [] then "" else lines[0] + Concat(lines[1..])
  }

  /** `textwrap.wrap(s, width)` on a text with no break opportunity: the text
      is one long word, and wrapping cuts it into pieces of `width` characters,
      the last one shorter; the empty text gives no line at all. */
  function Wrap(s: string, width: nat): (lines: seq<string>)
    requires width > 0 && Unbreakable(s)
    ensures Concat(lines) == s
    ensures forall k | 0 <= k < |lines| :: 0 < |lines[k]| <= width && Unbreakable(lines[k])
    ensures forall k | 0 <= k < |lines| - 1 :: |lines[k]| == width
    decreases |s|
  {
    if s == [] then []
    else if |s| <= width then
      assert Concat([s]) == s + Concat([]);
      [s]
    else
      var rest := Wrap(s[width..], width);
      assert ([s[..width]] + rest)[1..] == rest;
      [s[..width]] + rest
  }

  /** The body `build_output` accumulates: every line followed by a newline. */
  function Joined(lines: seq<string>): string {
    if lines == [] then "" else Joined(lines[..|lines| - 1]) + lines[|lines| - 1] + "\n"
  }

  lemma {:induction false} JoinedCons(line: string, lines: seq<string>)
    ensures Joined([line] + lines) == line + "\n" + Joined(lines)
    decreases |lines|
  {
    if lines == [] {
      assert ([line] + lines)[..0] == [];
    } else {
      var n := |lines|;
      assert ([line] + lines)[..n] == [line] + lines[..n - 1];
      JoinedCons(line, lines[..n - 1]);
    }
  }

  /** The PEM text of a base64 string: start marker and newline, the wrapped
      lines each ended by a newline, and the end marker with no newline after
      it. */
  function Frame(b64: string): string
    requires Unbreakable(b64)
  {
    StartMarker + "\n" + Joined(Wrap(b64, LineWidth)) + EndMarker
  }

  lemma EncodeUnbreakable(der: Bytes)
    ensures Unbreakable(Base64.Encode(der))
  {
    var s := Base64.Encode(der);
    forall i | 0 <= i < |s| ensures !IsBreakChar(s[i]) {
      assert Base64.InAlphabet(s[i]) || s[i] == '=';
    }
  }

  /** The PEM certificate request for the DER octets `der`. */
  function PemText(der: Bytes): string {
    EncodeUnbreakable(der);
    Frame(Base64.Encode(der))
  }

  /** The text starts with the start marker and a newline, and ends with the
      end marker, with no newline after it. */
  lemma PemMarkers(der: Bytes)
    ensures var text := PemText(der);
      |text| >= |StartMarker| + 1 + |EndMarker| &&
      text[..|StartMarker| + 1] == StartMarker + "\n" &&
      text[|text| - |EndMarker|..] == EndMarker &&
      text[|text| - 1] != '\n'
  {
    var body := Joined(Wrap(Base64.Encode(der), LineWidth));
    var text := PemText(der);
    assert text == (StartMarker + "\n") + body + EndMarker;
  }

  /** The layout of a body holding `n` characters of text: the `j`-th
      character is a newline exactly when it closes a full line of 64
      characters (it is then the 65th of its line) or when it is the last
      character of the body, and there is one line per started group of 64
      characters. */
  predicate LaidOut(body: string, n: nat) {
    |body| == n + (n + 63) / 64 &&
    forall j | 0 <= j < |body| :: (body[j] == '\n') == (j % 65 == 64 || j == |body| - 1)
  }

  lemma LaidOutLast(line: string)
    requires 0 < |line| <= 64 && Unbreakable(line)
    ensures LaidOut(line + "\n", |line|)
  {
    var body := line + "\n";
    forall j | 0 <= j < |body| ensures (body[j] == '\n') == (j % 65 == 64 || j == |body| - 1) {
      if j < |line| { assert !IsBreakChar(line[j]); }
    }
  }

  lemma LaidOutCons(line: string, rest: string, n: nat)
    requires |line| == 64 && Unbreakable(line) && n > 0 && LaidOut(rest, n)
    ensures LaidOut(line + "\n" + rest, 64 + n)
  {
    var body := line + "\n" + rest;
    forall j | 0 <= j < |body| ensures (body[j] == '\n') == (j % 65 == 64 || j == |body| - 1) {
      if j < 64 {
        assert !IsBreakChar(line[j]);
      } else if j > 64 {
        assert body[j] == rest[j - 65];
      }
    }
  }

  /** Every line of the body ends in a newline, every line but the last holds
      64 characters, and the last holds between 1 and 64. */
  lemma {:induction false} BodyLayout(s: string)
    requires Unbreakable(s)
    ensures LaidOut(Joined(Wrap(s, LineWidth)), |s|)
    decreases |s|
  {
    if s == [] {
    } else if |s| <= 64 {
      assert Wrap(s, LineWidth) == [s];
      assert Joined([s]) == Joined([]) + s + "\n";
      LaidOutLast(s);
    } else {
      var head, tail := s[..64], s[64..];
      assert Unbreakable(head) by {
        forall i | 0 <= i < |head| ensures !IsBreakChar(head[i]) { assert head[i] == s[i]; }
      }
      assert Unbreakable(tail) by {
        forall i | 0 <= i < |tail| ensures !IsBreakChar(tail[i]) { assert tail[i] == s[64 + i]; }
      }
      JoinedCons(head, Wrap(tail, LineWidth));
      BodyLayout(tail);
      LaidOutCons(head, Joined(Wrap(tail, LineWidth)), |tail|);
    }
  }

  /** Why a text is not a PEM certificate request whose DER can be recovered. */
  datatype ParseError = NotFramed | BadBase64(reason: Base64.DecodeError)

  /** The text between the markers, if both are where `Frame` puts them. */
  function Body(text: string): (r: Option<string>)
    ensures r.Some? ==> text == StartMarker + "\n" + r.value + EndMarker
  {
    var lo, hi := |StartMarker| + 1, |text| - |EndMarker|;
    if lo <= hi && text[..lo] == StartMarker + "\n" && text[hi..] == EndMarker then
      assert text == text[..lo] + text[lo..hi] + text[hi..];
      Some(text[lo..hi])
    else None
  }

  /** The body with its line breaks removed. */
  function Unwrap(body: string): string {
    if body == [] then ""
    else (if body[0] == '\n' then "" else [body[0]]) + Unwrap(body[1..])
  }

  lemma {:induction false} UnwrapAppend(a: string, b: string)
    ensures Unwrap(a + b) == Unwrap(a) + Unwrap(b)
    decreases |a|
  {
    if a == [] {
      assert a + b == b;
    } else {
      assert (a + b)[1..] == a[1..] + b;
      UnwrapAppend(a[1..], b);
    }
  }

  lemma {:induction false} UnwrapUnbroken(s: string)
    requires Unbreakable(s)
    ensures Unwrap(s) == s
    decreases |s|
  {
    if s != [] {
      assert !IsBreakChar(s[0]);
      UnwrapUnbroken(s[1..]);
    }
  }

  /** Dropping the line breaks of the body gives back the unwrapped text. */
  lemma {:induction false} UnwrapJoinedWrap(s: string)
    requires Unbreakable(s)
    ensures Unwrap(Joined(Wrap(s, LineWidth))) == s
    decreases |s|
  {
    if s == [] {
    } else if |s| <= LineWidth {
      assert Wrap(s, LineWidth) == [s];
      assert Joined([s]) == s + "\n" by {
        assert [s][..0] == [];
      }
      assert Unwrap("\n") == "" by {
        assert "\n"[1..] == "";
      }
      UnwrapAppend(s, "\n");
      UnwrapUnbroken(s);
    } else {
      var head, tail := s[..LineWidth], s[LineWidth..];
      assert Unbreakable(head) by {
        forall i | 0 <= i < |head| ensures !IsBreakChar(head[i]) { assert head[i] == s[i]; }
      }
      assert Unbreakable(tail) by {
        forall i | 0 <= i < |tail| ensures !IsBreakChar(tail[i]) { assert tail[i] == s[LineWidth + i]; }
      }
      var rest := Joined(Wrap(tail, LineWidth));
      JoinedCons(head, Wrap(tail, LineWidth));
      UnwrapAppend(head + "\n", rest);
      UnwrapAppend(head, "\n");
      UnwrapUnbroken(head);
      UnwrapJoinedWrap(tail);
      assert head + tail == s;
    }
  }

  /** What a PEM consumer does with the text: check the markers, drop the line
      breaks and base64-decode the body. */
  function ParsePem(text: string): Result<Bytes, ParseError> {
    match Body(text)
    case None => Err(NotFramed)
    case Some(body) =>
      match Base64.Decode(Unwrap(body))
      case Ok(der) => Ok(der)
      case Err(e) => Err(BadBase64(e))
  }

  /** Round trip: reading the PEM text back gives exactly the DER octets. */
  lemma PemRoundTrip(der: Bytes)
    ensures ParsePem(PemText(der)) == Ok(der)
  {
    var b64 := Base64.Encode(der);
    EncodeUnbreakable(der);
    var body := Joined(Wrap(b64, LineWidth));
    var text := PemText(der);
    assert text == StartMarker + "\n" + body + EndMarker;
    assert Body(text) == Some(body) by {
      var lo, hi := |StartMarker| + 1, |text| - |EndMarker|;
      assert text[..lo] == StartMarker + "\n";
      assert text[hi..] == EndMarker;
      assert text[lo..hi] == body;
    }
    UnwrapJoinedWrap(b64);
    Base64.DecodeEncode(der);
  }
}
